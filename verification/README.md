# US elections query service — a Dafny model

This project models `ElectionDataService`, the query and aggregation engine of
the US elections API. The service holds a read-only list of elections. Each
election has a year, its candidates and per-state result rows. A result row
names a candidate by ID and carries an electoral count (`E`) and a popular
count (`V`). The service answers:

- lookups: elections by year, states by abbreviation (ignoring case), and a
  year's candidate by party (ignoring case);
- per-party sums of electoral or popular votes;
- three-way Democratic / Republican / Other shares;
- a per-state table and a per-candidate table.

Layout:

- `wrappers.dfy` (`Wrappers`): `Option`, which stands for the null that
  `FirstOrDefault` and `?.` produce.
- `models.dfy` (`Models`): `Candidate`, `StateResult`, `State` and `Election`
  as immutable datatypes.
- `ordinal_ignore_case.dfy` (`OrdinalIgnoreCase`): string equality under
  `StringComparison.OrdinalIgnoreCase`, restricted to ASCII folding.
- `linq.dfy` (`Linq`): `FirstOrDefault` and `Distinct` (first-occurrence
  order), written once and shared by all the lookups.
- `election_data_service.dfy` (`ElectionDataService`): the service's
  operations and the properties proved about them.
- `scenarios.dfy` (`ElectionScenarios`): a concrete 2020 dataset with its
  answers worked out.

The service writes each aggregate twice: once over `E` and once over `V`.
Here each pair is one member with a `VoteKind` argument (`Electoral` or
`Popular`):

- `GetVotesByYear` models `GetElectoralVotesByYear` and `GetPopularVotesByYear`.
- `GetVotesByYearAndParty` models `GetElectoralVotesByYearAndParty` and
  `GetPopularVotesByYearAndParty`.

The election list is a parameter of every operation. The LINQ one-liners are
functions. The operations that loop over states and rows and update
accumulators or grow a list are methods. Each method's loop invariants tie its
accumulators, or the list built so far, to specification functions over a
prefix.

Percentages are exact reals: `(part / total) * 100`, before rounding. The
three shares of `GetVotesByYear` add up to exactly 100 for a known year whose
total is not 0, and are all zero otherwise.

## Model

| member | source | states |
|---|---|---|
| ElectionDataService.GetAllYears | US_Elections/Services/ElectionDataService.cs:21 | one year per election, in dataset order, so as many years as elections |
| ElectionDataService.GetElectionByYear | US_Elections/Services/ElectionDataService.cs:23 | none exactly when the year is not among the years; otherwise the first election with that year |
| ElectionDataService.UniqueYearsLookup | US_Elections/Services/ElectionDataService.cs:21-23 | if no two elections share a year, the year list has no duplicates and every election is what its own year finds |
| ElectionDataService.GetAllStates | US_Elections/Services/ElectionDataService.cs:25 | each abbreviation that occurs in any election's states, and nothing else; no duplicates; ordered by first appearance in the election-then-state order |
| Linq.FirstOrDefault | US_Elections/Services/ElectionDataService.cs:23 | none exactly when no element satisfies the predicate; otherwise the element at the first index that does (used again at :28, :33, :38, :146-147 and :173-174) |
| OrdinalIgnoreCase.EqualsIgnoreCase | US_Elections/Services/ElectionDataService.cs:28 | equal exactly when both strings fold to the same string, letter by letter; every string equals itself (used again at :33 and :38) |
| Linq.Distinct | US_Elections/Services/ElectionDataService.cs:25 | same members as the input, no duplicates, order of first occurrence |
| ElectionDataService.GetStateByAbbreviation | US_Elections/Services/ElectionDataService.cs:27-28 | none exactly when no state of any election matches ignoring case; otherwise a matching state of some election, the first match in the flattened election-then-state order |
| ElectionDataService.GetStateByAbbreviationIgnoresCase | US_Elections/Services/ElectionDataService.cs:27-28 | arguments that differ only in case give the same result |
| ElectionDataService.GetCandidateByParty | US_Elections/Services/ElectionDataService.cs:36-39 | none exactly when no candidate's party matches ignoring case; otherwise the first candidate whose party matches |
| ElectionDataService.GetCandidateByPartyIgnoresCase | US_Elections/Services/ElectionDataService.cs:36-39 | party names that differ only in case find the same candidate |
| ElectionDataService.GetCandidateByYearAndParty | US_Elections/Services/ElectionDataService.cs:30-34 | none for an unknown year; otherwise none exactly when no candidate of that year matches, else the first matching candidate of that year |
| ElectionDataService.GetCandidateByYearAndPartyIgnoresCase | US_Elections/Services/ElectionDataService.cs:30-34 | party names that differ only in case find the same candidate |
| ElectionDataService.GetVotesByYear | US_Elections/Services/ElectionDataService.cs:41-109 | the nested accumulator loops compute exactly the shares of ExpectedShares: zero for an unknown year or a zero total, otherwise each bucket's sum over all rows of all states as a share of the total |
| ElectionDataService.TallyStates | US_Elections/Services/ElectionDataService.cs:56-67 | the outer loop over states leaves in each accumulator the sum of its bucket over every row of every state |
| ElectionDataService.TallyRows | US_Elections/Services/ElectionDataService.cs:58-66 | the inner loop over one state's rows adds each row's votes to exactly the accumulator its bucket names |
| ElectionDataService.Classify | US_Elections/Services/ElectionDataService.cs:60-65 | a row goes to Democratic when it carries the Democrat's ID; to Republican only when it does not and carries the Republican's ID; to Other only when it carries neither (an absent candidate matches nothing) |
| ElectionDataService.ElectionTotal | US_Elections/Services/ElectionDataService.cs:46 | the sum of every row's votes of the chosen kind over all states; non-negative when every count is (the same sum is taken at :81 and :166-167) |
| ElectionDataService.BucketsPartition | US_Elections/Services/ElectionDataService.cs:56-67 | the Democratic, Republican and Other sums add up to the election-wide total: every row goes to exactly one accumulator |
| ElectionDataService.DemocratTestedFirst | US_Elections/Services/ElectionDataService.cs:60-65 | if both candidates carry the same ID, the Republican sum is 0; an absent candidate's sum is 0, so its rows go to Other |
| ElectionDataService.SharesSumToHundred | US_Elections/Services/ElectionDataService.cs:43-73 | an unknown year gives (0,0,0); a known year whose total is 0 gives (0,0,0); a known year whose total is not 0 gives shares adding up to exactly 100 |
| ElectionDataService.SharesBounded | US_Elections/Services/ElectionDataService.cs:69-73 | with non-negative vote counts each share lies in [0, 100] |
| ElectionDataService.MatchingTotal | US_Elections/Services/ElectionDataService.cs:119 | the sum of the votes of every row carrying the given ID, over all states; 0 when no row carries it (the popular form is :130) |
| ElectionDataService.GetVotesByYearAndParty | US_Elections/Services/ElectionDataService.cs:111-131 | 0 when the year is unknown or no candidate of that year has the party; otherwise the votes of every row, in every state, carrying that candidate's ID |
| ElectionDataService.BucketIsMatchingTotal | US_Elections/Services/ElectionDataService.cs:119 | the Democratic accumulator equals the Where/Sum over the Democratic candidate's ID; so does the Republican one when the two IDs differ |
| ElectionDataService.PartyTotalsPartitionElection | US_Elections/Services/ElectionDataService.cs:111-131 | for a known year with distinct major-party IDs, the Democrat sum, the Republican sum and the Other bucket add up to the election-wide total |
| ElectionDataService.VotesByYearAndPartyBounded | US_Elections/Services/ElectionDataService.cs:111-131 | with non-negative vote counts a per-party sum is non-negative and at most the election-wide total |
| ElectionDataService.FirstMatchVotes | US_Elections/Services/ElectionDataService.cs:146-147 | 0 when the candidate is absent or has no row; otherwise the votes of its first row in the state |
| ElectionDataService.StateEntry | US_Elections/Services/ElectionDataService.cs:145-155 | the entry carries the directory's name for the abbreviation; its Democratic and Republican counts are 0 when the state has no row for that candidate (or the candidate is absent) |
| ElectionDataService.TabulateStates | US_Elections/Services/ElectionDataService.cs:143-156 | one entry per state, in state order, each the state's StateEntry |
| ElectionDataService.GetPopularVotesByStateForYear | US_Elections/Services/ElectionDataService.cs:133-159 | empty for an unknown year; otherwise one entry per state, in state order, with the state's display name and the first-row popular votes of the Democratic and Republican candidates |
| ElectionDataService.FirstMatchTotal | US_Elections/Services/ElectionDataService.cs:173-174 | the sum over states of the candidate's first row's votes; 0 when no state has a row for the candidate |
| ElectionDataService.Percentage | US_Elections/Services/ElectionDataService.cs:176-177 | 0 when the total is not positive; within [0, 100] when the count lies between 0 and the total; exactly 100 when a positive count is the whole total |
| ElectionDataService.CandidateEntry | US_Elections/Services/ElectionDataService.cs:179-187 | party and name are the candidate's; each percentage is 0 when its total is not positive; both counts are 0 when no state has a row for the candidate |
| ElectionDataService.TabulateCandidates | US_Elections/Services/ElectionDataService.cs:166-188 | the totals are taken once, then one entry per candidate, in candidate order, each the candidate's CandidateEntry |
| ElectionDataService.TabulateCandidate | US_Elections/Services/ElectionDataService.cs:173-187 | given the two election-wide totals, the loop body builds exactly the candidate's CandidateEntry |
| ElectionDataService.GetVotesByCandidateForYear | US_Elections/Services/ElectionDataService.cs:161-191 | empty for an unknown year; otherwise one entry per candidate, in candidate order, with first-row-per-state sums and their percentages; every percentage is 0 when its total is not positive |
| ElectionDataService.CandidateEntryBounded | US_Elections/Services/ElectionDataService.cs:173-177 | with non-negative vote counts a candidate's counts are at most the totals, and its percentages lie in [0, 100] |
| ElectionDataService.FirstMatchTotalIsMatchingTotal | US_Elections/Services/ElectionDataService.cs:173-174 | when no state has two rows for the candidate, the first-row sum equals the all-rows sum used by the per-party operations |
| ElectionScenarios.ElectoralShares2020 | US_Elections/Services/ElectionDataService.cs:41-74 | for the 2020 example the electoral shares are 5500/93, 3800/93 and 0 |
| ElectionScenarios.RepublicanElectoralVotes2020 | US_Elections/Services/ElectionDataService.cs:111-120 | for the 2020 example the Republican electoral sum is 38 |
| ElectionScenarios.UnknownYear1776 | US_Elections/Services/ElectionDataService.cs:43-44 | an unknown year finds no election, gives zero shares and a zero per-party sum |
| ElectionScenarios.StateEntries2020 | US_Elections/Services/ElectionDataService.cs:143-155 | the 2020 example's per-state entries are (CA, 11000000, 6000000) and (TX, 5200000, 5900000) |
| ElectionScenarios.ThirdPartyCountsAsOther | US_Elections/Services/ElectionDataService.cs:64-65 | a row for candidate ID 99, who is not in the election, is in the total and wholly in Other |

## Left out

- The constructor (ElectionDataService.cs:14-19) reads and deserialises a JSON file. The election list is a parameter instead.
- `StateService.AbbreviationToName` is not part of this model. `GetPopularVotesByStateForYear` takes it as an arbitrary function parameter.
- `ElectionController.cs` (HTTP routes, status codes, image URLs, state-name decoration) and `Program.cs` (host setup) are transport and bootstrap code, so they are left out.
- `Math.Round(_, 2)` and `double` arithmetic are not modelled. Shares and percentages are exact reals before rounding.
- GetVotesByYear: does not model the checked 32-bit `int` total at ElectionDataService.cs:46 and :81. There LINQ's `Sum` adds `int` counts and throws an overflow exception past 2^31 - 1 before the result is converted to `double`; the model's total is unbounded. The `double` accumulators at :49-51 are modelled as exact integers, which agrees with `double` while sums stay below 2^53.
- GetVotesByCandidateForYear: does not model the 32-bit `int` sums at ElectionDataService.cs:166-167 and :173-174. Each throws an overflow exception past 2^31 - 1 (for example two rows with counts 2147483647 and 1); the model's counts and totals are unbounded.
- GetVotesByYearAndParty: does not model the 32-bit `int` sums. LINQ's checked `Sum` throws an overflow exception past 2^31 - 1; the model has no bound.
- OrdinalIgnoreCase folds only ASCII letters. .NET also folds non-ASCII letters; the model does not.
- Null lists (`Candidates`, `States`, `R`) and null strings are not modelled. The loaded dataset is taken to be complete.
- Display-only fields (`TermStart`, `TermEnd`, `Image`, `ImageFull`, `StateName`) are left out. `HasVotes` is carried but, as in the source, never read.
- Repeated calls with the same arguments return the same result. This holds by construction, since every operation is a function of its arguments or a method without state.

## Notes on the source

- `GetAllYears` does not remove duplicates. Its result is duplicate-free only when the dataset's years are unique (`UniqueYearsLookup`).
- The three-way shares are zeroed only when the total is exactly 0. The per-candidate percentages are zeroed whenever the total is not positive. The two agree on non-negative data.
- The per-party sums add every matching row of a state. The per-candidate table adds only the first matching row per state. They agree when no state has two rows for one candidate (`FirstMatchTotalIsMatchingTotal`).
