# Skill-based matchmaking, modelled in Dafny

The system keeps, for every player, a window of that player's last five
match scores. The player's skill is the mean of that window. A matchmaker
holds a pool of registered players. On request it picks a match: a copy of
the pool sorted by ascending skill, cut to its first two players.

The model has two modules, one per source file:

- `Stats` (Stats.dfy) models `UPlayerStats`. The class `PlayerStats` has
  the public `Scores` field as a `seq<int>`. `AddMatchScore` changes that
  field in place. `CalculateSkill` is the accumulation loop. The
  specification functions are `Window` (the window after one score),
  `Replay` (after many scores), `Sum` and `Mean` (the skill as an exact
  rational).
- `Matchmaking` (Matchmaking.dfy) models `UMatchmaker`. The class
  `Matchmaker` has the `Players` field as a `seq<PlayerStats>` of
  references. `AddPlayer` appends to it. `FindMatch` copies the pool into
  a fresh array, sorts that array in place (`SortBySkill`, an insertion
  sort), and copies its first `MatchSize` entries into the result.
  `Matchmaker.CompareSkill` is the strict comparison the sort uses.
  `IsMatch` states what a match is: the right size, drawn from the pool,
  sorted by skill, and made of the lowest-skilled players. Multisets are
  used because the pool may hold the same player twice.

`FindMatch` and `CalculateSkill` have no `modifies` clause. So the verifier
checks that neither changes the pool or any player's scores. Calling
`CalculateSkill` twice with no `AddMatchScore` in between therefore gives
the same value.

`SortedPlayers.Sort(CompareSkill)` (Source/SBMM/Matchmaker.cpp:11) is not
stable. So the model promises nothing about which of several equal-skill
players comes first. `MatchSkillsAgree` proves that any two matches of one
pool list the same skills in the same order. `Matchmaker.FindMatchTwice`
applies it to two `FindMatch` calls in a row. It can do so because
`FindMatch` changes nothing.

## Model

| member | source | states |
|---|---|---|
| `Stats.Window` | Source/SBMM/Playerstats.cpp:5-9 | The new score is always the last entry. Below five entries the score is appended and nothing is removed. At five or more, exactly the oldest entry is dropped, so the length stays the same. A window of at most five entries stays at most five. |
| `Stats.PlayerStats.AddMatchScore` | Source/SBMM/Playerstats.cpp:3-10 | The new `Scores` is `Window` of the old `Scores` and the score. The bound of five (`Valid`) is kept if it held before. |
| `Stats.PlayerStats.constructor` | Source/SBMM/Playerstats.h:13-14 | A new player starts with no scores, inside the bound. |
| `Stats.WindowKeepsSuffix` | Source/SBMM/Playerstats.cpp:5-9 | Recording one score into a window does not change the last five entries of the window followed by the later scores. |
| `Stats.ReplayKeepsMostRecent` | Source/SBMM/Playerstats.cpp:3-10 | Recording scores one after another into a window of at most five keeps exactly the last five of everything recorded, in order. |
| `Stats.FreshWindowKeepsLastScores` | Source/SBMM/Playerstats.cpp:3-10 | Starting from no scores, after recording `xs` the window is the last min(\|xs\|, 5) elements of `xs`, in the order recorded. |
| `Stats.Mean` | Source/SBMM/Playerstats.cpp:12-25 | The skill of an empty window is 0. Otherwise the skill times the number of scores equals their sum. |
| `Stats.PlayerStats.CalculateSkill` | Source/SBMM/Playerstats.cpp:12-26 | Returns `Mean(Scores)`. The loop keeps the running total equal to the sum of the scores visited so far. It modifies nothing. |
| `Stats.MeanBetween` | Source/SBMM/Playerstats.cpp:19-25 | If every score of a non-empty window lies in [lo, hi], so does the skill. |
| `Stats.MeanWithinScores` | Source/SBMM/Playerstats.cpp:19-25 | The skill of a non-empty window lies between its lowest and its highest score. |
| `Stats.MeanOfThreeScores` | Source/SBMM/Playerstats.cpp:19-25 | Scores 10, 20 and 30 give a skill of 20. |
| `Matchmaking.SkillOf` | Source/SBMM/Matchmaker.cpp:26 | The skill the comparison reads, as `CalculateSkill` computes it: 0 for a player with no scores, and otherwise a value that times the number of scores gives their total. |
| `Matchmaking.Matchmaker.CompareSkill` | Source/SBMM/Matchmaker.cpp:24-27 | True exactly when the mean of the first player's window is below the mean of the second's. A player never compares below itself. |
| `Matchmaking.Matchmaker.constructor` | Source/SBMM/MM.h:20-21 | A new matchmaker has an empty pool. |
| `Matchmaking.Matchmaker.AddPlayer` | Source/SBMM/Matchmaker.cpp:3-6 | The pool becomes the old pool plus the player at the end. There is no duplicate check, no capacity limit and no failure case. |
| `Matchmaking.Matchmaker.FindMatch` | Source/SBMM/Matchmaker.cpp:8-22 | The result satisfies `IsMatch` for the pool. Its length is min(2, pool size). Its multiset of players is contained in the pool's. It is sorted by ascending skill. No pool member left out has a lower skill than a selected one. Neither the pool nor any scores change. |
| `Matchmaking.SortBySkill` | Source/SBMM/Matchmaker.cpp:10-11 | The sorted copy is in ascending order of skill and is a permutation of the pool. Nothing is promised about equal skills. |
| `Matchmaking.InsertBySkill` | Source/SBMM/Matchmaker.cpp:11 | One step of the sort: if a[..i] was sorted by skill, a[..i+1] is sorted afterwards. The array is a permutation of what it was, and a[i+1..] is left alone. |
| `Matchmaking.SortedPrefixIsLowest` | Source/SBMM/Matchmaker.cpp:13-19 | The first k players of a sorted sequence are sorted and drawn from it. No player after them has a lower skill. |
| `Matchmaking.MatchHeadIsLowest` | Source/SBMM/Matchmaker.cpp:11-19 | The first player of a non-empty match has the lowest skill in the whole pool. |
| `Matchmaking.HeadsAgree` | Source/SBMM/Matchmaker.cpp:11-19 | Two matches of the same pool start with players of equal skill. |
| `Matchmaking.SecondNotAbove` | Source/SBMM/Matchmaker.cpp:14-19 | For two matches of size two from the same pool, the second player of one has no higher skill than the second player of the other. This holds even when the pool holds a player twice. |
| `Matchmaking.MatchSkillsAgree` | Source/SBMM/Matchmaker.cpp:8-22 | Two matches of the same unchanged pool have equal length and list equal skills position by position. |
| `Matchmaking.Matchmaker.FindMatchTwice` | Source/SBMM/Matchmaker.cpp:8-22 | Two `FindMatch` calls with nothing in between return matches of equal length whose skills agree position by position. |
| `Matchmaking.SmallPoolMatch` | Source/SBMM/Matchmaker.cpp:16-19 | An empty pool gives an empty match. A one-player pool gives exactly that player. |
| `Matchmaking.ThreePlayerMatch` | Source/SBMM/Matchmaker.cpp:10-19 | Players of skills 30, 10 and 20, added in that order, give the 10-player and then the 20-player. |
| `Matchmaking.CompareSkillIsStrictWeakOrder` | Source/SBMM/Matchmaker.cpp:24-27 | `CompareSkill` is irreflexive, asymmetric and transitive. Two players are incomparable exactly when their skills are equal. |

## Left out

- Floating point: `CalculateSkill` converts each score to 32-bit `float` and sums and divides in `float`. The model uses exact `real` arithmetic and says nothing about rounding. So `FindMatch`'s sortedness and lowest-skill claims are about exact means. Once a window's sum exceeds 2^24 in magnitude (scores near 2^23 suffice), float means can reverse the exact order. For example, `[8388609, 8388610]` has exact mean 8388609.5 and float mean 8388610, while `[8388610, 8388610, 8388609]` has exact mean 8388609.67 and float mean 8388609, so `CompareSkill` puts the second window first. From means near 2^20, two different exact means can round to the same float, and the sort may then list either player first. For example, `[1048576, 1048576, 1048576, 1048576, 1048577]` (exact mean 1048576.2) and `[1048576, 1048576, 1048576, 1048577]` (exact mean 1048576.25) both give float 1048576.25.
- Integer width: scores are `int32` in the source and unbounded `int` here.
- The internals of the engine's `TArray::Sort` (an introsort) are not modelled. An insertion sort with the same comparison stands in for it. Only sortedness and permutation are specified, which is all the engine promises.
- The engine's object and reflection machinery (`UCLASS`, `UFUNCTION`, `UPROPERTY`, `GENERATED_BODY`, the generated headers) is not modelled. It has no behaviour of its own.
- The header defects in Source/SBMM/MM.h are not modelled. `CompareSkill` is declared after the class closes, and the header names `Matchmaker.generated.h` while the .cpp includes `Matchmaker.h`. Matchmaker.cpp:11 also passes `CompareSkill`, which takes two `UPlayerStats*`, to `TArray::Sort`. For an array of raw pointers `TArray::Sort` dereferences the elements before it calls the predicate, so that call does not build either. These are build problems, not behaviour. The model follows the evident intent: the pool is sorted by `CalculateSkill()`.
- Null or dangling player pointers, object lifetime and garbage collection are not modelled. Dafny references here are non-null, and the source never checks them.
- Matchmaking.MatchSkillsAgree: two consecutive `FindMatch` calls return the same references in the program, because each call sorts an identical copy with a deterministic sort. The model does not state this, because the model's tie order is the insertion sort's, not the engine's. It states only that the skills agree position by position.
- Concurrency is not modelled. The source has no locking and expects a single caller.
- Direct writes to the public `Scores` field from outside the class are not modelled as an operation. `AddMatchScore` has no precondition on the length of `Scores`. Its contract covers a window longer than five: the length then stays the same, because one score is added and one is dropped. So the bound is never restored once broken.
