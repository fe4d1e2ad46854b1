/** ElectionDataService: read-only queries and aggregates over the loaded
    list of elections. The list is an immutable parameter of every operation;
    the electoral (`E`) and popular (`V`) variants of each aggregate, which the
    service writes out twice, are one operation here with a VoteKind argument. */
module ElectionDataService {
  import opened Wrappers
  import opened Models
  import opened Linq
  import opened OrdinalIgnoreCase

  // ---------------------------------------------------------------------
  // Years and elections
  // ---------------------------------------------------------------------

  /** _elections.Select(e => e.Year) */
  function GetAllYears(elections: seq<Election>): (years: seq<int>)
    ensures |years| == |elections|
    ensures forall i :: 0 <= i < |elections| ==> years[i] == elections[i].year
  {
    if elections == [] then [] else [elections[0].year] + GetAllYears(elections[1..])
  }

  /** _elections.FirstOrDefault(e => e.Year == year) */
  function GetElectionByYear(elections: seq<Election>, year: int): (found: Option<Election>)
    ensures found.None? <==> year !in GetAllYears(elections)
    ensures found.Some? ==> exists k :: 0 <= k < |elections| && elections[k] == found.value &&
                                        found.value.year == year &&
                                        forall j :: 0 <= j < k ==> elections[j].year != year
  {
    FirstOrDefault(elections, HeldIn(year))
  }

  /** The predicate `e => e.Year == year`. */
  function HeldIn(year: int): Election -> bool {
    (e: Election) => e.year == year
  }

  /** The dataset's own invariant: no two elections share a year. */
  predicate UniqueYears(elections: seq<Election>) {
    forall i, j :: 0 <= i < j < |elections| ==> elections[i].year != elections[j].year
  }

  /** Under that invariant the year list has no duplicates, and each election
      is the one its own year finds. */
  lemma UniqueYearsLookup(elections: seq<Election>)
    requires UniqueYears(elections)
    ensures forall i, j :: 0 <= i < j < |elections| ==> GetAllYears(elections)[i] != GetAllYears(elections)[j]
    ensures forall i :: 0 <= i < |elections| ==> GetElectionByYear(elections, elections[i].year) == Some(elections[i])
  {
    var years := GetAllYears(elections);
    forall i | 0 <= i < |elections|
      ensures GetElectionByYear(elections, elections[i].year) == Some(elections[i])
    {
      assert years[i] == elections[i].year;
      var found := GetElectionByYear(elections, elections[i].year);
      var k :| 0 <= k < |elections| && elections[k] == found.value && found.value.year == elections[i].year &&
               forall j :: 0 <= j < k ==> elections[j].year != elections[i].year;
      assert k == i;
    }
  }

  // ---------------------------------------------------------------------
  // States
  // ---------------------------------------------------------------------

  /** _elections.SelectMany(e => e.States): every election's states, election
      by election, each election's in its own order. */
  function StatesOf(elections: seq<Election>): (states: seq<State>)
  {
    if elections == [] then [] else elections[0].states + StatesOf(elections[1..])
  }

  lemma {:induction false} StatesOfMembers(elections: seq<Election>, s: State)
    ensures s in StatesOf(elections) <==> exists i :: 0 <= i < |elections| && s in elections[i].states
  {
    if elections != [] {
      StatesOfMembers(elections[1..], s);
      if s in StatesOf(elections[1..]) {
        var i :| 0 <= i < |elections[1..]| && s in elections[1..][i].states;
        assert s in elections[i + 1].states;
      }
      if exists i :: 0 <= i < |elections| && s in elections[i].states {
        var i :| 0 <= i < |elections| && s in elections[i].states;
        if i > 0 {
          assert s in elections[1..][i - 1].states;
        }
      }
    }
  }

  /** .Select(s => s.S) */
  function AbbreviationsOf(states: seq<State>): (abbreviations: seq<string>)
    ensures |abbreviations| == |states|
    ensures forall i :: 0 <= i < |states| ==> abbreviations[i] == states[i].abbreviation
  {
    seq(|states|, i requires 0 <= i < |states| => states[i].abbreviation)
  }

  /** _elections.SelectMany(e => e.States).Select(s => s.S).Distinct(): every
      abbreviation of every election once (compared exactly, not ignoring case),
      in the order of first appearance. */
  function GetAllStates(elections: seq<Election>): (abbreviations: seq<string>)
    ensures forall a :: a in abbreviations <==>
              exists i, j :: 0 <= i < |elections| && 0 <= j < |elections[i].states| &&
                             elections[i].states[j].abbreviation == a
    ensures forall i, j :: 0 <= i < j < |abbreviations| ==> abbreviations[i] != abbreviations[j]
    ensures forall i :: 0 <= i < |abbreviations| ==> abbreviations[i] in AbbreviationsOf(StatesOf(elections))
    ensures forall i, j :: 0 <= i < j < |abbreviations| ==>
              IndexOf(AbbreviationsOf(StatesOf(elections)), abbreviations[i]) <
              IndexOf(AbbreviationsOf(StatesOf(elections)), abbreviations[j])
  {
    var all := AbbreviationsOf(StatesOf(elections));
    var r := Distinct(all);
    forall a ensures a in r <==> exists i, j :: 0 <= i < |elections| && 0 <= j < |elections[i].states| &&
                                               elections[i].states[j].abbreviation == a
    {
      AbbreviationMembers(elections, a);
    }
    r
  }

  lemma AbbreviationMembers(elections: seq<Election>, a: string)
    ensures a in Distinct(AbbreviationsOf(StatesOf(elections))) <==>
              exists i, j :: 0 <= i < |elections| && 0 <= j < |elections[i].states| &&
                             elections[i].states[j].abbreviation == a
  {
    var states := StatesOf(elections);
    var all := AbbreviationsOf(states);
    if a in Distinct(all) {
      var k :| 0 <= k < |all| && all[k] == a;
      StatesOfMembers(elections, states[k]);
      var i :| 0 <= i < |elections| && states[k] in elections[i].states;
      var j :| 0 <= j < |elections[i].states| && elections[i].states[j] == states[k];
    }
    if exists i, j :: 0 <= i < |elections| && 0 <= j < |elections[i].states| &&
                      elections[i].states[j].abbreviation == a {
      var i, j :| 0 <= i < |elections| && 0 <= j < |elections[i].states| &&
                  elections[i].states[j].abbreviation == a;
      StatesOfMembers(elections, elections[i].states[j]);
      var k :| 0 <= k < |states| && states[k] == elections[i].states[j];
      assert all[k] == a;
    }
  }

  /** The predicate `s => s.S.Equals(abbreviation, OrdinalIgnoreCase)`. */
  function AbbreviatedAs(abbreviation: string): State -> bool {
    (s: State) => EqualsIgnoreCase(s.abbreviation, abbreviation)
  }

  /** _elections.SelectMany(e => e.States).FirstOrDefault(s => s.S equals
      abbreviation under OrdinalIgnoreCase): a search of all years at once. */
  function GetStateByAbbreviation(elections: seq<Election>, abbreviation: string): (found: Option<State>)
    ensures found.None? <==>
              forall i, j :: 0 <= i < |elections| && 0 <= j < |elections[i].states| ==>
                !EqualsIgnoreCase(elections[i].states[j].abbreviation, abbreviation)
    ensures found.Some? ==> EqualsIgnoreCase(found.value.abbreviation, abbreviation) &&
                            exists i :: 0 <= i < |elections| && found.value in elections[i].states
    ensures found.Some? ==> exists k :: 0 <= k < |StatesOf(elections)| && StatesOf(elections)[k] == found.value &&
                                        forall j :: 0 <= j < k ==> !EqualsIgnoreCase(StatesOf(elections)[j].abbreviation, abbreviation)
  {
    var r := FirstOrDefault(StatesOf(elections), AbbreviatedAs(abbreviation));
    forall i, j | 0 <= i < |elections| && 0 <= j < |elections[i].states|
      ensures elections[i].states[j] in StatesOf(elections)
    {
      StatesOfMembers(elections, elections[i].states[j]);
    }
    if r.Some? then StatesOfMembers(elections, r.value); r else r
  }

  /** Arguments that differ only in case find the same state. */
  lemma GetStateByAbbreviationIgnoresCase(elections: seq<Election>, a: string, b: string)
    requires EqualsIgnoreCase(a, b)
    ensures GetStateByAbbreviation(elections, a) == GetStateByAbbreviation(elections, b)
  {
    forall s: State ensures EqualsIgnoreCase(s.abbreviation, a) == EqualsIgnoreCase(s.abbreviation, b) {
      EqualsIgnoreCaseSubstitutes(s.abbreviation, a, b);
    }
    FirstOrDefaultCongruent(StatesOf(elections), AbbreviatedAs(a), AbbreviatedAs(b));
  }

  // ---------------------------------------------------------------------
  // Candidates
  // ---------------------------------------------------------------------

  /** The predicate `c => c.Party.Equals(party, OrdinalIgnoreCase)`. */
  function OfParty(party: string): Candidate -> bool {
    (c: Candidate) => EqualsIgnoreCase(c.party, party)
  }

  /** election.Candidates.FirstOrDefault(c => c.Party equals party under
      OrdinalIgnoreCase) */
  function GetCandidateByParty(election: Election, party: string): (found: Option<Candidate>)
    ensures found.None? <==>
              forall i :: 0 <= i < |election.candidates| ==> !EqualsIgnoreCase(election.candidates[i].party, party)
    ensures found.Some? ==> exists k :: 0 <= k < |election.candidates| && election.candidates[k] == found.value &&
                                        EqualsIgnoreCase(found.value.party, party) &&
                                        forall j :: 0 <= j < k ==> !EqualsIgnoreCase(election.candidates[j].party, party)
  {
    FirstOrDefault(election.candidates, OfParty(party))
  }

  /** Arguments that differ only in case find the same candidate. */
  lemma GetCandidateByPartyIgnoresCase(election: Election, a: string, b: string)
    requires EqualsIgnoreCase(a, b)
    ensures GetCandidateByParty(election, a) == GetCandidateByParty(election, b)
  {
    forall c: Candidate ensures EqualsIgnoreCase(c.party, a) == EqualsIgnoreCase(c.party, b) {
      EqualsIgnoreCaseSubstitutes(c.party, a, b);
    }
    FirstOrDefaultCongruent(election.candidates, OfParty(a), OfParty(b));
  }

  /** None for an unknown year; otherwise the first candidate of that year's
      election whose party matches ignoring case. */
  function GetCandidateByYearAndParty(elections: seq<Election>, year: int, party: string): (found: Option<Candidate>)
    ensures year !in GetAllYears(elections) ==> found.None?
    ensures year in GetAllYears(elections) ==>
              var election := GetElectionByYear(elections, year).value;
              (found.None? <==> forall i :: 0 <= i < |election.candidates| ==>
                                  !EqualsIgnoreCase(election.candidates[i].party, party)) &&
              (found.Some? ==> exists k :: 0 <= k < |election.candidates| && election.candidates[k] == found.value &&
                                           EqualsIgnoreCase(found.value.party, party) &&
                                           forall j :: 0 <= j < k ==> !EqualsIgnoreCase(election.candidates[j].party, party))
  {
    match GetElectionByYear(elections, year)
    case None => None
    case Some(election) => GetCandidateByParty(election, party)
  }

  lemma GetCandidateByYearAndPartyIgnoresCase(elections: seq<Election>, year: int, a: string, b: string)
    requires EqualsIgnoreCase(a, b)
    ensures GetCandidateByYearAndParty(elections, year, a) == GetCandidateByYearAndParty(elections, year, b)
  {
    if GetElectionByYear(elections, year).Some? {
      GetCandidateByPartyIgnoresCase(GetElectionByYear(elections, year).value, a, b);
    }
  }

  // ---------------------------------------------------------------------
  // Vote fields and sums
  // ---------------------------------------------------------------------

  /** Which field of a result row an aggregate reads: `E` or `V`. */
  datatype VoteKind = Electoral | Popular

  function Votes(row: StateResult, kind: VoteKind): int {
    match kind
    case Electoral => row.electoral
    case Popular => row.popular
  }

  /** Every vote count of every row is non-negative, as the dataset supplies them. */
  predicate NonNegativeVotes(states: seq<State>) {
    forall i, j :: 0 <= i < |states| && 0 <= j < |states[i].results| ==>
      states[i].results[j].electoral >= 0 && states[i].results[j].popular >= 0
  }

  /** No row of any state carries the candidate ID `id`. */
  predicate HasNoRows(states: seq<State>, id: int) {
    forall i, j :: 0 <= i < |states| && 0 <= j < |states[i].results| ==> states[i].results[j].id != id
  }

  /** state.R.Sum(r => r.E) */
  function RowsTotal(rows: seq<StateResult>, kind: VoteKind): (total: int)
    ensures (forall j :: 0 <= j < |rows| ==> Votes(rows[j], kind) >= 0) ==> total >= 0
  {
    if rows == [] then 0 else RowsTotal(rows[..|rows| - 1], kind) + Votes(rows[|rows| - 1], kind)
  }

  /** election.States.Sum(s => s.R.Sum(r => r.E)): the election-wide total. */
  function ElectionTotal(states: seq<State>, kind: VoteKind): (total: int)
    ensures NonNegativeVotes(states) ==> total >= 0
  {
    if states == [] then 0
    else ElectionTotal(states[..|states| - 1], kind) + RowsTotal(states[|states| - 1].results, kind)
  }

  /** `r.ID == candidate?.ID`: false when the candidate is absent. */
  predicate MatchesCandidate(row: StateResult, candidate: Option<Candidate>) {
    candidate.Some? && row.id == candidate.value.id
  }

  // ---------------------------------------------------------------------
  // Three-way shares (GetElectoralVotesByYear, GetPopularVotesByYear)
  // ---------------------------------------------------------------------

  datatype Bucket = DemocraticBucket | RepublicanBucket | OtherBucket

  /** The accumulator a row is added to: the Democratic candidate is tested
      first, then the Republican one; everything else is Other. */
  function Classify(row: StateResult, democrat: Option<Candidate>, republican: Option<Candidate>): (bucket: Bucket)
    ensures bucket == OtherBucket ==> !MatchesCandidate(row, democrat) && !MatchesCandidate(row, republican)
    ensures bucket == RepublicanBucket ==> !MatchesCandidate(row, democrat) && MatchesCandidate(row, republican)
    ensures bucket == DemocraticBucket ==> MatchesCandidate(row, democrat)
  {
    if MatchesCandidate(row, democrat) then DemocraticBucket
    else if MatchesCandidate(row, republican) then RepublicanBucket
    else OtherBucket
  }

  /** Votes of the rows that go to `bucket`. */
  function RowsBucketTotal(rows: seq<StateResult>, democrat: Option<Candidate>, republican: Option<Candidate>,
                           bucket: Bucket, kind: VoteKind): int
  {
    if rows == [] then 0
    else
      var last := rows[|rows| - 1];
      RowsBucketTotal(rows[..|rows| - 1], democrat, republican, bucket, kind) +
      (if Classify(last, democrat, republican) == bucket then Votes(last, kind) else 0)
  }

  function BucketTotal(states: seq<State>, democrat: Option<Candidate>, republican: Option<Candidate>,
                       bucket: Bucket, kind: VoteKind): int
  {
    if states == [] then 0
    else
      BucketTotal(states[..|states| - 1], democrat, republican, bucket, kind) +
      RowsBucketTotal(states[|states| - 1].results, democrat, republican, bucket, kind)
  }

  lemma {:induction false} RowsBucketsPartition(rows: seq<StateResult>, democrat: Option<Candidate>,
                                                republican: Option<Candidate>, kind: VoteKind)
    ensures RowsBucketTotal(rows, democrat, republican, DemocraticBucket, kind) +
            RowsBucketTotal(rows, democrat, republican, RepublicanBucket, kind) +
            RowsBucketTotal(rows, democrat, republican, OtherBucket, kind) == RowsTotal(rows, kind)
  {
    if rows != [] {
      RowsBucketsPartition(rows[..|rows| - 1], democrat, republican, kind);
    }
  }

  /** Every row lands in exactly one accumulator, so the three sums add up
      to the election-wide total. */
  lemma {:induction false} BucketsPartition(states: seq<State>, democrat: Option<Candidate>,
                                            republican: Option<Candidate>, kind: VoteKind)
    ensures BucketTotal(states, democrat, republican, DemocraticBucket, kind) +
            BucketTotal(states, democrat, republican, RepublicanBucket, kind) +
            BucketTotal(states, democrat, republican, OtherBucket, kind) == ElectionTotal(states, kind)
  {
    if states != [] {
      BucketsPartition(states[..|states| - 1], democrat, republican, kind);
      RowsBucketsPartition(states[|states| - 1].results, democrat, republican, kind);
    }
  }

  lemma {:induction false} RowsBucketEmpty(rows: seq<StateResult>, democrat: Option<Candidate>,
                                           republican: Option<Candidate>, bucket: Bucket, kind: VoteKind)
    requires forall j :: 0 <= j < |rows| ==> Classify(rows[j], democrat, republican) != bucket
    ensures RowsBucketTotal(rows, democrat, republican, bucket, kind) == 0
  {
    if rows != [] {
      RowsBucketEmpty(rows[..|rows| - 1], democrat, republican, bucket, kind);
    }
  }

  /** A bucket no row is classified into sums to zero. */
  lemma {:induction false} BucketEmpty(states: seq<State>, democrat: Option<Candidate>,
                                       republican: Option<Candidate>, bucket: Bucket, kind: VoteKind)
    requires forall i, j :: 0 <= i < |states| && 0 <= j < |states[i].results| ==>
               Classify(states[i].results[j], democrat, republican) != bucket
    ensures BucketTotal(states, democrat, republican, bucket, kind) == 0
  {
    if states != [] {
      BucketEmpty(states[..|states| - 1], democrat, republican, bucket, kind);
      RowsBucketEmpty(states[|states| - 1].results, democrat, republican, bucket, kind);
    }
  }

  /** The Democratic test comes first: when both candidates carry the same ID,
      the Republican accumulator receives nothing. An absent candidate's
      accumulator receives nothing either; its rows go to Other. */
  lemma DemocratTestedFirst(states: seq<State>, democrat: Option<Candidate>,
                            republican: Option<Candidate>, kind: VoteKind)
    ensures democrat.Some? && republican.Some? && democrat.value.id == republican.value.id ==>
              BucketTotal(states, democrat, republican, RepublicanBucket, kind) == 0
    ensures democrat.None? ==> BucketTotal(states, democrat, republican, DemocraticBucket, kind) == 0
    ensures republican.None? ==> BucketTotal(states, democrat, republican, RepublicanBucket, kind) == 0
  {
    if democrat.Some? && republican.Some? && democrat.value.id == republican.value.id {
      BucketEmpty(states, democrat, republican, RepublicanBucket, kind);
    }
    if democrat.None? {
      BucketEmpty(states, democrat, republican, DemocraticBucket, kind);
    }
    if republican.None? {
      BucketEmpty(states, democrat, republican, RepublicanBucket, kind);
    }
  }

  lemma {:induction false} RowsBucketNonNegative(rows: seq<StateResult>, democrat: Option<Candidate>,
                                                 republican: Option<Candidate>, bucket: Bucket, kind: VoteKind)
    requires forall j :: 0 <= j < |rows| ==> Votes(rows[j], kind) >= 0
    ensures RowsBucketTotal(rows, democrat, republican, bucket, kind) >= 0
  {
    if rows != [] {
      RowsBucketNonNegative(rows[..|rows| - 1], democrat, republican, bucket, kind);
    }
  }

  lemma {:induction false} BucketNonNegative(states: seq<State>, democrat: Option<Candidate>,
                                             republican: Option<Candidate>, bucket: Bucket, kind: VoteKind)
    requires NonNegativeVotes(states)
    ensures BucketTotal(states, democrat, republican, bucket, kind) >= 0
  {
    if states != [] {
      var last := states[|states| - 1].results;
      assert forall j :: 0 <= j < |last| ==> Votes(last[j], kind) >= 0 by {
        assert forall j :: 0 <= j < |last| ==> last[j] == states[|states| - 1].results[j];
      }
      BucketNonNegative(states[..|states| - 1], democrat, republican, bucket, kind);
      RowsBucketNonNegative(last, democrat, republican, bucket, kind);
    }
  }

  /** The three percentages, before Math.Round(_, 2). */
  datatype Shares = Shares(democratic: real, republican: real, other: real)

  const NoShares := Shares(0.0, 0.0, 0.0)

  /** (part / total) * 100 */
  function Share(part: int, total: int): real
    requires total != 0
  {
    (part as real / total as real) * 100.0
  }

  /** What GetElectoralVotesByYear (kind Electoral) and GetPopularVotesByYear
      (kind Popular) return: no shares for an unknown year or a zero total,
      otherwise each accumulator's share of the total. */
  function ExpectedShares(elections: seq<Election>, year: int, kind: VoteKind): Shares {
    match GetElectionByYear(elections, year)
    case None => NoShares
    case Some(election) =>
      var total := ElectionTotal(election.states, kind);
      if total == 0 then NoShares
      else
        var democrat := GetCandidateByParty(election, "Democrat");
        var republican := GetCandidateByParty(election, "Republican");
        Shares(Share(BucketTotal(election.states, democrat, republican, DemocraticBucket, kind), total),
               Share(BucketTotal(election.states, democrat, republican, RepublicanBucket, kind), total),
               Share(BucketTotal(election.states, democrat, republican, OtherBucket, kind), total))
  }

  /** An unknown year or a zero total gives the all-zero answer; for a known
      year with a non-zero total the three shares add up to exactly 100. */
  lemma SharesSumToHundred(elections: seq<Election>, year: int, kind: VoteKind)
    ensures GetElectionByYear(elections, year).None? ==> ExpectedShares(elections, year, kind) == NoShares
    ensures GetElectionByYear(elections, year).Some? &&
            ElectionTotal(GetElectionByYear(elections, year).value.states, kind) == 0 ==>
              ExpectedShares(elections, year, kind) == NoShares
    ensures GetElectionByYear(elections, year).Some? &&
            ElectionTotal(GetElectionByYear(elections, year).value.states, kind) != 0 ==>
              var shares := ExpectedShares(elections, year, kind);
              shares.democratic + shares.republican + shares.other == 100.0
  {
    match GetElectionByYear(elections, year)
    case None =>
    case Some(election) =>
      var total := ElectionTotal(election.states, kind);
      if total != 0 {
        var democrat := GetCandidateByParty(election, "Democrat");
        var republican := GetCandidateByParty(election, "Republican");
        var d := BucketTotal(election.states, democrat, republican, DemocraticBucket, kind);
        var r := BucketTotal(election.states, democrat, republican, RepublicanBucket, kind);
        var o := BucketTotal(election.states, democrat, republican, OtherBucket, kind);
        BucketsPartition(election.states, democrat, republican, kind);
        SharesAdd(d, r, o, total);
      }
  }

  /** With non-negative vote counts every share lies between 0 and 100. */
  lemma SharesBounded(elections: seq<Election>, year: int, kind: VoteKind)
    requires forall i :: 0 <= i < |elections| ==> NonNegativeVotes(elections[i].states)
    ensures var shares := ExpectedShares(elections, year, kind);
            0.0 <= shares.democratic <= 100.0 && 0.0 <= shares.republican <= 100.0 && 0.0 <= shares.other <= 100.0
  {
    match GetElectionByYear(elections, year)
    case None =>
    case Some(election) =>
      var total := ElectionTotal(election.states, kind);
      if total != 0 {
        var democrat := GetCandidateByParty(election, "Democrat");
        var republican := GetCandidateByParty(election, "Republican");
        var d := BucketTotal(election.states, democrat, republican, DemocraticBucket, kind);
        var r := BucketTotal(election.states, democrat, republican, RepublicanBucket, kind);
        var o := BucketTotal(election.states, democrat, republican, OtherBucket, kind);
        BucketsPartition(election.states, democrat, republican, kind);
        BucketNonNegative(election.states, democrat, republican, DemocraticBucket, kind);
        BucketNonNegative(election.states, democrat, republican, RepublicanBucket, kind);
        BucketNonNegative(election.states, democrat, republican, OtherBucket, kind);
        ShareBounded(d, total);
        ShareBounded(r, total);
        ShareBounded(o, total);
      }
  }

  lemma SharesAdd(d: int, r: int, o: int, total: int)
    requires total != 0 && d + r + o == total
    ensures Share(d, total) + Share(r, total) + Share(o, total) == 100.0
  {
    var t := total as real;
    calc {
      Share(d, total) + Share(r, total) + Share(o, total);
      (d as real / t + r as real / t + o as real / t) * 100.0;
      { assert d as real / t + r as real / t + o as real / t == (d + r + o) as real / t; }
      (t / t) * 100.0;
    }
  }

  lemma ShareBounded(part: int, total: int)
    requires 0 <= part <= total && total != 0
    ensures 0.0 <= Share(part, total) <= 100.0
  {
    assert part as real / total as real <= 1.0;
  }

  /** Extending a prefix of rows by one row adds that row's votes to its
      own bucket and nothing to the others. */
  lemma RowsBucketTotalStep(rows: seq<StateResult>, j: nat, democrat: Option<Candidate>,
                            republican: Option<Candidate>, kind: VoteKind)
    requires j < |rows|
    ensures forall bucket ::
              RowsBucketTotal(rows[..j + 1], democrat, republican, bucket, kind) ==
              RowsBucketTotal(rows[..j], democrat, republican, bucket, kind) +
              (if Classify(rows[j], democrat, republican) == bucket then Votes(rows[j], kind) else 0)
  {
    assert rows[..j + 1][..j] == rows[..j];
  }

  /** Extending a prefix of states by one state adds all of that state's rows. */
  lemma BucketTotalStep(states: seq<State>, i: nat, democrat: Option<Candidate>,
                        republican: Option<Candidate>, kind: VoteKind)
    requires i < |states|
    ensures forall bucket ::
              BucketTotal(states[..i + 1], democrat, republican, bucket, kind) ==
              BucketTotal(states[..i], democrat, republican, bucket, kind) +
              RowsBucketTotal(states[i].results, democrat, republican, bucket, kind)
  {
    assert states[..i + 1][..i] == states[..i];
  }

  /** GetElectoralVotesByYear / GetPopularVotesByYear: the nested loops over
      states and rows feed each row into one of three accumulators. */
  method GetVotesByYear(elections: seq<Election>, year: int, kind: VoteKind) returns (shares: Shares)
    ensures shares == ExpectedShares(elections, year, kind)
  {
    var found := GetElectionByYear(elections, year);
    if found.None? {
      return NoShares;
    }
    var election := found.value;
    var states := election.states;
    var total := ElectionTotal(states, kind);
    if total == 0 {
      return NoShares;
    }

    var democrat := GetCandidateByParty(election, "Democrat");
    var republican := GetCandidateByParty(election, "Republican");
    var democraticVotes, republicanVotes, otherVotes := TallyStates(states, democrat, republican, kind);
    shares := Shares(Share(democraticVotes, total), Share(republicanVotes, total), Share(otherVotes, total));
  }

  /** The outer loop of GetVotesByYear over the election's states. */
  method TallyStates(states: seq<State>, democrat: Option<Candidate>, republican: Option<Candidate>, kind: VoteKind)
    returns (democraticVotes: int, republicanVotes: int, otherVotes: int)
    ensures democraticVotes == BucketTotal(states, democrat, republican, DemocraticBucket, kind)
    ensures republicanVotes == BucketTotal(states, democrat, republican, RepublicanBucket, kind)
    ensures otherVotes == BucketTotal(states, democrat, republican, OtherBucket, kind)
  {
    democraticVotes, republicanVotes, otherVotes := 0, 0, 0;
    for i := 0 to |states|
      invariant democraticVotes == BucketTotal(states[..i], democrat, republican, DemocraticBucket, kind)
      invariant republicanVotes == BucketTotal(states[..i], democrat, republican, RepublicanBucket, kind)
      invariant otherVotes == BucketTotal(states[..i], democrat, republican, OtherBucket, kind)
    {
      var d, r, o := TallyRows(states[i].results, democrat, republican, kind);
      BucketTotalStep(states, i, democrat, republican, kind);
      democraticVotes, republicanVotes, otherVotes := democraticVotes + d, republicanVotes + r, otherVotes + o;
    }
    assert states[..|states|] == states;
  }

  /** The inner loop of GetVotesByYear over one state's rows: each row's
      votes go to the Democratic, the Republican or the other accumulator. */
  method TallyRows(rows: seq<StateResult>, democrat: Option<Candidate>, republican: Option<Candidate>, kind: VoteKind)
    returns (democraticVotes: int, republicanVotes: int, otherVotes: int)
    ensures democraticVotes == RowsBucketTotal(rows, democrat, republican, DemocraticBucket, kind)
    ensures republicanVotes == RowsBucketTotal(rows, democrat, republican, RepublicanBucket, kind)
    ensures otherVotes == RowsBucketTotal(rows, democrat, republican, OtherBucket, kind)
  {
    democraticVotes, republicanVotes, otherVotes := 0, 0, 0;
    for j := 0 to |rows|
      invariant democraticVotes == RowsBucketTotal(rows[..j], democrat, republican, DemocraticBucket, kind)
      invariant republicanVotes == RowsBucketTotal(rows[..j], democrat, republican, RepublicanBucket, kind)
      invariant otherVotes == RowsBucketTotal(rows[..j], democrat, republican, OtherBucket, kind)
    {
      var row := rows[j];
      RowsBucketTotalStep(rows, j, democrat, republican, kind);
      if MatchesCandidate(row, democrat) {
        democraticVotes := democraticVotes + Votes(row, kind);
      } else if MatchesCandidate(row, republican) {
        republicanVotes := republicanVotes + Votes(row, kind);
      } else {
        otherVotes := otherVotes + Votes(row, kind);
      }
    }
    assert rows[..|rows|] == rows;
  }

  // ---------------------------------------------------------------------
  // Per-party sums (GetElectoralVotesByYearAndParty, GetPopularVotesByYearAndParty)
  // ---------------------------------------------------------------------

  /** state.R.Where(r => r.ID == id).Sum(r => r.E) */
  function MatchingRowsTotal(rows: seq<StateResult>, id: int, kind: VoteKind): (total: int)
    ensures (forall j :: 0 <= j < |rows| ==> rows[j].id != id) ==> total == 0
  {
    if rows == [] then 0
    else
      var last := rows[|rows| - 1];
      MatchingRowsTotal(rows[..|rows| - 1], id, kind) + (if last.id == id then Votes(last, kind) else 0)
  }

  /** election.States.Sum(s => s.R.Where(r => r.ID == id).Sum(r => r.E)) */
  function MatchingTotal(states: seq<State>, id: int, kind: VoteKind): (total: int)
    ensures HasNoRows(states, id) ==> total == 0
  {
    if states == [] then 0
    else MatchingTotal(states[..|states| - 1], id, kind) + MatchingRowsTotal(states[|states| - 1].results, id, kind)
  }

  /** 0 for an unknown year or a party no candidate of that year has;
      otherwise the votes of every row of the first such candidate. */
  function GetVotesByYearAndParty(elections: seq<Election>, year: int, party: string, kind: VoteKind): (votes: int)
    ensures GetCandidateByYearAndParty(elections, year, party).None? ==> votes == 0
    ensures GetCandidateByYearAndParty(elections, year, party).Some? ==>
              votes == MatchingTotal(GetElectionByYear(elections, year).value.states,
                                     GetCandidateByYearAndParty(elections, year, party).value.id, kind)
  {
    match GetElectionByYear(elections, year)
    case None => 0
    case Some(election) =>
      match GetCandidateByParty(election, party)
      case None => 0
      case Some(candidate) => MatchingTotal(election.states, candidate.id, kind)
  }

  lemma {:induction false} RowsBucketIsMatchingTotal(rows: seq<StateResult>, democrat: Option<Candidate>,
                                                     republican: Option<Candidate>, kind: VoteKind)
    requires democrat.Some?
    ensures RowsBucketTotal(rows, democrat, republican, DemocraticBucket, kind) ==
            MatchingRowsTotal(rows, democrat.value.id, kind)
    ensures republican.Some? && republican.value.id != democrat.value.id ==>
              RowsBucketTotal(rows, democrat, republican, RepublicanBucket, kind) ==
              MatchingRowsTotal(rows, republican.value.id, kind)
  {
    if rows != [] {
      RowsBucketIsMatchingTotal(rows[..|rows| - 1], democrat, republican, kind);
    }
  }

  /** The Democratic accumulator holds the votes of every row of the
      Democratic candidate; so does the Republican one when the two
      candidates have different IDs. */
  lemma {:induction false} BucketIsMatchingTotal(states: seq<State>, democrat: Option<Candidate>,
                                                 republican: Option<Candidate>, kind: VoteKind)
    requires democrat.Some?
    ensures BucketTotal(states, democrat, republican, DemocraticBucket, kind) ==
            MatchingTotal(states, democrat.value.id, kind)
    ensures republican.Some? && republican.value.id != democrat.value.id ==>
              BucketTotal(states, democrat, republican, RepublicanBucket, kind) ==
              MatchingTotal(states, republican.value.id, kind)
  {
    if states != [] {
      BucketIsMatchingTotal(states[..|states| - 1], democrat, republican, kind);
      RowsBucketIsMatchingTotal(states[|states| - 1].results, democrat, republican, kind);
    }
  }

  /** The Democratic and Republican per-party sums plus the votes of every
      other row make up the election-wide total (when the two candidates are
      distinct, and taking an absent candidate's sum as 0). */
  lemma PartyTotalsPartitionElection(elections: seq<Election>, year: int, kind: VoteKind)
    requires year in GetAllYears(elections)
    ensures var election := GetElectionByYear(elections, year).value;
            var democrat := GetCandidateByParty(election, "Democrat");
            var republican := GetCandidateByParty(election, "Republican");
            (democrat.Some? && republican.Some? ==> democrat.value.id != republican.value.id) ==>
              GetVotesByYearAndParty(elections, year, "Democrat", kind) +
              GetVotesByYearAndParty(elections, year, "Republican", kind) +
              BucketTotal(election.states, democrat, republican, OtherBucket, kind) ==
              ElectionTotal(election.states, kind)
  {
    var election := GetElectionByYear(elections, year).value;
    var democrat := GetCandidateByParty(election, "Democrat");
    var republican := GetCandidateByParty(election, "Republican");
    BucketsPartition(election.states, democrat, republican, kind);
    DemocratTestedFirst(election.states, democrat, republican, kind);
    if democrat.Some? {
      BucketIsMatchingTotal(election.states, democrat, republican, kind);
    } else if republican.Some? {
      // With no Democratic candidate the Republican one is in effect tested first.
      SwapAbsentDemocrat(election.states, republican, kind);
      BucketIsMatchingTotal(election.states, republican, None, kind);
    }
  }

  lemma {:induction false} SwapAbsentDemocrat(states: seq<State>, republican: Option<Candidate>, kind: VoteKind)
    requires republican.Some?
    ensures BucketTotal(states, None, republican, RepublicanBucket, kind) ==
            BucketTotal(states, republican, None, DemocraticBucket, kind)
  {
    if states != [] {
      SwapAbsentDemocrat(states[..|states| - 1], republican, kind);
      SwapAbsentDemocratRows(states[|states| - 1].results, republican, kind);
    }
  }

  lemma {:induction false} SwapAbsentDemocratRows(rows: seq<StateResult>, republican: Option<Candidate>, kind: VoteKind)
    requires republican.Some?
    ensures RowsBucketTotal(rows, None, republican, RepublicanBucket, kind) ==
            RowsBucketTotal(rows, republican, None, DemocraticBucket, kind)
  {
    if rows != [] {
      SwapAbsentDemocratRows(rows[..|rows| - 1], republican, kind);
    }
  }

  lemma {:induction false} MatchingRowsBounded(rows: seq<StateResult>, id: int, kind: VoteKind)
    requires forall j :: 0 <= j < |rows| ==> Votes(rows[j], kind) >= 0
    ensures 0 <= MatchingRowsTotal(rows, id, kind) <= RowsTotal(rows, kind)
  {
    if rows != [] {
      MatchingRowsBounded(rows[..|rows| - 1], id, kind);
    }
  }

  lemma {:induction false} MatchingTotalBounded(states: seq<State>, id: int, kind: VoteKind)
    requires NonNegativeVotes(states)
    ensures 0 <= MatchingTotal(states, id, kind) <= ElectionTotal(states, kind)
  {
    if states != [] {
      var last := states[|states| - 1].results;
      assert forall j :: 0 <= j < |last| ==> last[j] == states[|states| - 1].results[j];
      MatchingTotalBounded(states[..|states| - 1], id, kind);
      MatchingRowsBounded(last, id, kind);
    }
  }

  /** With non-negative vote counts a per-party sum is non-negative and at
      most the election-wide total. */
  lemma VotesByYearAndPartyBounded(elections: seq<Election>, year: int, party: string, kind: VoteKind)
    requires forall i :: 0 <= i < |elections| ==> NonNegativeVotes(elections[i].states)
    ensures GetVotesByYearAndParty(elections, year, party, kind) >= 0
    ensures year in GetAllYears(elections) ==>
              GetVotesByYearAndParty(elections, year, party, kind) <=
              ElectionTotal(GetElectionByYear(elections, year).value.states, kind)
  {
    match GetElectionByYear(elections, year)
    case None =>
    case Some(election) =>
      match GetCandidateByParty(election, party)
      case None =>
      case Some(candidate) =>
        MatchingTotalBounded(election.states, candidate.id, kind);
  }

  // ---------------------------------------------------------------------
  // Per-state and per-candidate tables
  // ---------------------------------------------------------------------

  /** The predicate `r => r.ID == candidate?.ID`. */
  function RowOf(candidate: Option<Candidate>): StateResult -> bool {
    (r: StateResult) => MatchesCandidate(r, candidate)
  }

  /** No row belongs to the candidate (always so for an absent candidate). */
  predicate NoRowFor(rows: seq<StateResult>, candidate: Option<Candidate>) {
    forall j :: 0 <= j < |rows| ==> !MatchesCandidate(rows[j], candidate)
  }

  /** state.R.FirstOrDefault(r => r.ID == candidate?.ID)?.V ?? 0: the votes of
      the first row of the candidate, 0 when it has none or is absent. */
  function FirstMatchVotes(rows: seq<StateResult>, candidate: Option<Candidate>, kind: VoteKind): (votes: int)
    ensures NoRowFor(rows, candidate) ==> votes == 0
    ensures candidate.None? ==> votes == 0
    ensures (exists j :: 0 <= j < |rows| && MatchesCandidate(rows[j], candidate)) ==>
              exists k :: 0 <= k < |rows| && MatchesCandidate(rows[k], candidate) && votes == Votes(rows[k], kind) &&
                          forall j :: 0 <= j < k ==> !MatchesCandidate(rows[j], candidate)
  {
    match FirstOrDefault(rows, RowOf(candidate))
    case None => 0
    case Some(row) => Votes(row, kind)
  }

  /** When a candidate has at most one row in a state, its first row's votes
      are all its votes there. */
  lemma {:induction false} FirstMatchIsMatchingRowsTotal(rows: seq<StateResult>, candidate: Candidate, kind: VoteKind)
    requires forall i, j :: 0 <= i < j < |rows| && rows[i].id == candidate.id ==> rows[j].id != candidate.id
    ensures FirstMatchVotes(rows, Some(candidate), kind) == MatchingRowsTotal(rows, candidate.id, kind)
  {
    if rows != [] {
      var init := rows[..|rows| - 1];
      FirstMatchIsMatchingRowsTotal(init, candidate, kind);
      var p := RowOf(Some(candidate));
      if rows[|rows| - 1].id == candidate.id {
        assert forall j :: 0 <= j < |init| ==> !p(init[j]);
      } else {
        assert forall j :: 0 <= j < |rows| && p(rows[j]) ==> j < |init|;
        FirstOrDefaultDropLast(rows, p);
      }
    }
  }

  /** One entry of GetPopularVotesByStateForYear. */
  datatype StateVoteResult = StateVoteResult(stateName: string, democraticVotes: int, republicanVotes: int)

  /** The entry for one state: its display name and the popular votes of the
      first row of each major-party candidate. */
  function StateEntry(state: State, democrat: Option<Candidate>, republican: Option<Candidate>,
                      abbreviationToName: string -> string): (entry: StateVoteResult)
    ensures entry.stateName == abbreviationToName(state.abbreviation)
    ensures NoRowFor(state.results, democrat) ==> entry.democraticVotes == 0
    ensures NoRowFor(state.results, republican) ==> entry.republicanVotes == 0
  {
    StateVoteResult(abbreviationToName(state.abbreviation),
                    FirstMatchVotes(state.results, democrat, Popular),
                    FirstMatchVotes(state.results, republican, Popular))
  }

  /** GetPopularVotesByStateForYear: empty for an unknown year, otherwise one
      entry per state of that year, in state order. The name directory is the
      parameter `abbreviationToName`. */
  method GetPopularVotesByStateForYear(elections: seq<Election>, year: int, abbreviationToName: string -> string)
    returns (table: seq<StateVoteResult>)
    ensures year !in GetAllYears(elections) ==> table == []
    ensures year in GetAllYears(elections) ==>
              var election := GetElectionByYear(elections, year).value;
              |table| == |election.states| &&
              forall i :: 0 <= i < |table| ==>
                table[i] == StateEntry(election.states[i], GetCandidateByParty(election, "Democrat"),
                                       GetCandidateByParty(election, "Republican"), abbreviationToName)
  {
    var found := GetElectionByYear(elections, year);
    if found.None? {
      return [];
    }
    var election := found.value;
    var democrat := GetCandidateByParty(election, "Democrat");
    var republican := GetCandidateByParty(election, "Republican");
    table := TabulateStates(election.states, democrat, republican, abbreviationToName);
  }

  /** The loop of GetPopularVotesByStateForYear: each state in turn gets its
      entry. */
  method TabulateStates(states: seq<State>, democrat: Option<Candidate>, republican: Option<Candidate>,
                        abbreviationToName: string -> string)
    returns (table: seq<StateVoteResult>)
    ensures |table| == |states|
    ensures forall i :: 0 <= i < |table| ==> table[i] == StateEntry(states[i], democrat, republican, abbreviationToName)
  {
    table := [];
    for i := 0 to |states|
      invariant |table| == i
      invariant forall k :: 0 <= k < i ==> table[k] == StateEntry(states[k], democrat, republican, abbreviationToName)
    {
      var state := states[i];
      var stateName := abbreviationToName(state.abbreviation);
      var democraticVotes := FirstMatchVotes(state.results, democrat, Popular);
      var republicanVotes := FirstMatchVotes(state.results, republican, Popular);
      var entry := StateVoteResult(stateName, democraticVotes, republicanVotes);
      ghost var earlier := table;
      table := table + [entry];
      forall k | 0 <= k < i + 1
        ensures table[k] == StateEntry(states[k], democrat, republican, abbreviationToName)
      {
        if k < i {
          assert table[k] == earlier[k];
        }
      }
    }
  }

  /** One entry of GetVotesByCandidateForYear (percentages before Math.Round). */
  datatype CandidateVoteResult = CandidateVoteResult(
    party: string, candidateName: string,
    electoralVotesNumber: int, electoralVotesPercentage: real,
    popularVotesNumber: int, popularVotesPercentage: real)

  /** election.States.Sum(s => s.R.FirstOrDefault(r => r.ID == candidate.ID)?.E ?? 0):
      only the candidate's first row in each state counts. */
  function FirstMatchTotal(states: seq<State>, candidate: Candidate, kind: VoteKind): (total: int)
    ensures HasNoRows(states, candidate.id) ==> total == 0
  {
    if states == [] then 0
    else FirstMatchTotal(states[..|states| - 1], candidate, kind) +
         FirstMatchVotes(states[|states| - 1].results, Some(candidate), kind)
  }

  /** (votes / total) * 100 when the total is positive, 0 otherwise. */
  function Percentage(votes: int, total: int): (percentage: real)
    ensures total <= 0 ==> percentage == 0.0
    ensures 0 <= votes <= total ==> 0.0 <= percentage <= 100.0
    ensures 0 < votes == total ==> percentage == 100.0
  {
    if total > 0 then (votes as real / total as real) * 100.0 else 0.0
  }

  function CandidateEntry(candidate: Candidate, states: seq<State>): (entry: CandidateVoteResult)
    ensures entry.party == candidate.party && entry.candidateName == candidate.name
    ensures ElectionTotal(states, Electoral) <= 0 ==> entry.electoralVotesPercentage == 0.0
    ensures ElectionTotal(states, Popular) <= 0 ==> entry.popularVotesPercentage == 0.0
    ensures HasNoRows(states, candidate.id) ==> entry.electoralVotesNumber == 0 && entry.popularVotesNumber == 0
  {
    var electoralVotes := FirstMatchTotal(states, candidate, Electoral);
    var popularVotes := FirstMatchTotal(states, candidate, Popular);
    CandidateVoteResult(candidate.party, candidate.name,
                        electoralVotes, Percentage(electoralVotes, ElectionTotal(states, Electoral)),
                        popularVotes, Percentage(popularVotes, ElectionTotal(states, Popular)))
  }

  /** GetVotesByCandidateForYear: empty for an unknown year, otherwise one
      entry per candidate of that year, in candidate order. */
  method GetVotesByCandidateForYear(elections: seq<Election>, year: int) returns (table: seq<CandidateVoteResult>)
    ensures year !in GetAllYears(elections) ==> table == []
    ensures year in GetAllYears(elections) ==>
              var election := GetElectionByYear(elections, year).value;
              |table| == |election.candidates| &&
              (forall i :: 0 <= i < |table| ==> table[i] == CandidateEntry(election.candidates[i], election.states)) &&
              (ElectionTotal(election.states, Electoral) <= 0 ==>
                 forall i :: 0 <= i < |table| ==> table[i].electoralVotesPercentage == 0.0) &&
              (ElectionTotal(election.states, Popular) <= 0 ==>
                 forall i :: 0 <= i < |table| ==> table[i].popularVotesPercentage == 0.0)
  {
    var found := GetElectionByYear(elections, year);
    if found.None? {
      return [];
    }
    var election := found.value;
    table := TabulateCandidates(election.candidates, election.states);
    forall i | 0 <= i < |table|
      ensures ElectionTotal(election.states, Electoral) <= 0 ==> table[i].electoralVotesPercentage == 0.0
      ensures ElectionTotal(election.states, Popular) <= 0 ==> table[i].popularVotesPercentage == 0.0
    {
      assert table[i] == CandidateEntry(election.candidates[i], election.states);
    }
  }

  /** The loop of GetVotesByCandidateForYear: the two totals are taken once,
      then each candidate in turn gets its entry. */
  method TabulateCandidates(candidates: seq<Candidate>, states: seq<State>) returns (table: seq<CandidateVoteResult>)
    ensures |table| == |candidates|
    ensures forall i :: 0 <= i < |table| ==> table[i] == CandidateEntry(candidates[i], states)
  {
    var totalElectoralVotes := ElectionTotal(states, Electoral);
    var totalPopularVotes := ElectionTotal(states, Popular);

    table := [];
    for i := 0 to |candidates|
      invariant |table| == i
      invariant forall k :: 0 <= k < i ==> table[k] == CandidateEntry(candidates[k], states)
    {
      var entry := TabulateCandidate(candidates[i], states, totalElectoralVotes, totalPopularVotes);
      ghost var earlier := table;
      table := table + [entry];
      forall k | 0 <= k < i + 1
        ensures table[k] == CandidateEntry(candidates[k], states)
      {
        if k < i {
          assert table[k] == earlier[k];
        }
      }
    }
  }

  /** The body of that loop: one candidate's counts and percentages of the
      totals taken before the loop. */
  method TabulateCandidate(candidate: Candidate, states: seq<State>, totalElectoralVotes: int, totalPopularVotes: int)
    returns (entry: CandidateVoteResult)
    requires totalElectoralVotes == ElectionTotal(states, Electoral)
    requires totalPopularVotes == ElectionTotal(states, Popular)
    ensures entry == CandidateEntry(candidate, states)
  {
    var electoralVotes := FirstMatchTotal(states, candidate, Electoral);
    var popularVotes := FirstMatchTotal(states, candidate, Popular);
    var electoralPercentage := Percentage(electoralVotes, totalElectoralVotes);
    var popularPercentage := Percentage(popularVotes, totalPopularVotes);
    entry := CandidateVoteResult(candidate.party, candidate.name, electoralVotes, electoralPercentage,
                                 popularVotes, popularPercentage);
  }

  lemma {:induction false} FirstMatchBounded(rows: seq<StateResult>, candidate: Candidate, kind: VoteKind)
    requires forall j :: 0 <= j < |rows| ==> Votes(rows[j], kind) >= 0
    ensures 0 <= FirstMatchVotes(rows, Some(candidate), kind) <= MatchingRowsTotal(rows, candidate.id, kind)
  {
    if rows != [] {
      var init := rows[..|rows| - 1];
      var p := RowOf(Some(candidate));
      FirstMatchBounded(init, candidate, kind);
      MatchingRowsBounded(init, candidate.id, kind);
      if !p(rows[|rows| - 1]) {
        FirstOrDefaultDropLast(rows, p);
      } else if exists j :: 0 <= j < |init| && p(init[j]) {
        var j :| 0 <= j < |init| && p(init[j]);
        assert p(rows[j]);
        FirstOrDefaultKeepsEarlyMatch(rows, p, j);
      }
    }
  }

  lemma {:induction false} FirstMatchTotalBounded(states: seq<State>, candidate: Candidate, kind: VoteKind)
    requires NonNegativeVotes(states)
    ensures 0 <= FirstMatchTotal(states, candidate, kind) <= MatchingTotal(states, candidate.id, kind)
  {
    if states != [] {
      var last := states[|states| - 1].results;
      assert forall j :: 0 <= j < |last| ==> last[j] == states[|states| - 1].results[j];
      FirstMatchTotalBounded(states[..|states| - 1], candidate, kind);
      FirstMatchBounded(last, candidate, kind);
    }
  }

  /** With non-negative vote counts each candidate's percentages lie between
      0 and 100 and its counts never exceed the election-wide totals. */
  lemma CandidateEntryBounded(candidate: Candidate, states: seq<State>)
    requires NonNegativeVotes(states)
    ensures var entry := CandidateEntry(candidate, states);
            0 <= entry.electoralVotesNumber <= ElectionTotal(states, Electoral) &&
            0 <= entry.popularVotesNumber <= ElectionTotal(states, Popular) &&
            0.0 <= entry.electoralVotesPercentage <= 100.0 &&
            0.0 <= entry.popularVotesPercentage <= 100.0
  {
    FirstMatchTotalBounded(states, candidate, Electoral);
    FirstMatchTotalBounded(states, candidate, Popular);
    MatchingTotalBounded(states, candidate.id, Electoral);
    MatchingTotalBounded(states, candidate.id, Popular);
    var e := FirstMatchTotal(states, candidate, Electoral);
    var v := FirstMatchTotal(states, candidate, Popular);
    if ElectionTotal(states, Electoral) > 0 {
      ShareBounded(e, ElectionTotal(states, Electoral));
    }
    if ElectionTotal(states, Popular) > 0 {
      ShareBounded(v, ElectionTotal(states, Popular));
    }
  }

  /** When no state holds two rows for the same candidate, the per-candidate
      table's counts agree with the per-party sums, which add up every row. */
  lemma {:induction false} FirstMatchTotalIsMatchingTotal(states: seq<State>, candidate: Candidate, kind: VoteKind)
    requires forall s, i, j :: 0 <= s < |states| && 0 <= i < j < |states[s].results| ==>
               (states[s].results[i].id == candidate.id ==> states[s].results[j].id != candidate.id)
    ensures FirstMatchTotal(states, candidate, kind) == MatchingTotal(states, candidate.id, kind)
  {
    if states != [] {
      var last := states[|states| - 1].results;
      assert forall i :: 0 <= i < |last| ==> last[i] == states[|states| - 1].results[i];
      FirstMatchTotalIsMatchingTotal(states[..|states| - 1], candidate, kind);
      FirstMatchIsMatchingRowsTotal(last, candidate, kind);
    }
  }
}
