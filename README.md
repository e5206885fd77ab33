# Sampling strategies, game construction and the simulation loop of a potential-game learner

This project models three parts of a simulator for learning in k-player
potential games with n strategies per player, where every utility entry is
unknown until that joint action has been sampled:

- **the next-sample strategies** (`utils/sample_strategy.py`). Each strategy
  reads the optimistic and pessimistic potential bounds OptPhi and PesPhi
  and the mask of observed cells. prob_active_4 also reads the Values
  tensor. A strategy then either picks one joint action, returned with a
  one-hot probability tensor, or builds a probability tensor and draws a
  joint action from it. Module `Strategy` has every strategy and the string
  dispatch `sample_index`.
- **`make_game`** (`utils/game_maker.py`). It builds either a random exact
  potential game or the parameters of a congestion game. Module
  `GameMaker` fills the utility tensors in place, slice by slice along each
  player's axis. It proves that the result is an exact potential game: a
  player's unilateral deviation changes its utility by exactly the change
  in the potential.
- **the run and round loop of `main`** (`multi_runner.py`). Module `Runner`
  covers one fresh game, solver and regret object per run. Each round draws
  a flat choice from the solver's probability tensor and decodes it
  row-major into a joint action. It then samples the game there and
  records the regret and the running cumulative regret.

Module `Tensor` is shared. It stores a tensor of shape [n]*k as a flat
row-major sequence and defines:
- `Flatten` and `Unravel`, numpy's `ravel_multi_index` and `unravel_index`;
- `ArgMax`, numpy's first-maximum argmax;
- `FirstUnknown`, the first unobserved cell;
- sums and normalisation;
- the in-place masked assignment, subtraction and division the strategies
  use.

How the model represents the source:
- **Unobserved cells.** The source marks them NaN in the known-utility
  tensor. Here that tensor is a `seq<bool>` mask, true where the cell has
  been observed.
- **Randomness.** Every random draw is a parameter:
  - the index `np.random.choice` picks;
  - the uniform `np.random.rand`;
  - the permutation `np.argsort` returns, which can be any ascending order
    of the cells, since the default sort is not stable;
  - `randint`'s potential tensor;
  - the congestion means.
- **Exceptions.** The numpy exceptions a strategy can end in are the
  `Fails` outcomes. The implicit `None` of a Python function that falls off
  its end is `Nothing`.
- **Integers.** The random potential is kept in exact integer units of
  1/100000, which is randint's draw before the division, so the constant
  0.25 becomes 25000 units.

## Model

| member | source | states |
|---|---|---|
| Tensor.ArgMax | utils/sample_strategy.py:109 | the result is the first position of the largest entry: no entry is larger, and every earlier entry is strictly smaller (numpy breaks ties this way) |
| Tensor.FirstMaxUnique | utils/sample_strategy.py:109 | exactly one position has that property, so any first-maximum definition agrees with ArgMax |
| Tensor.Max | utils/sample_strategy.py:59 | np.max bounds every entry and is attained by one |
| Tensor.Min | utils/sample_strategy.py:181 | np.min is below every entry and is attained by one |
| Tensor.FirstUnknown | utils/sample_strategy.py:42-43 | `np.argwhere(np.isnan(...))[0]`: nothing exactly when every cell is observed, otherwise the first unobserved cell in row-major order |
| Tensor.FirstUnknownUnique | utils/sample_strategy.py:42-43 | a cell is the first unobserved one if and only if FirstUnknown returns it |
| Tensor.Flatten | utils/sample_strategy.py:324 | `np.ravel_multi_index` of a joint action: the flat position of an action inside the grid lies below n^k, inside the tensor |
| Tensor.Unravel | multi_runner.py:178 | `np.unravel_index` into shape [n]*k gives k coordinates, each below n |
| Tensor.UnravelFlatten | multi_runner.py:178 | decoding the flat position of a joint action gives the action back |
| Tensor.FlattenUnravel | multi_runner.py:177-178 | encoding the decoding of a flat index below n^k gives the index back |
| Tensor.GridCoordinates | utils/sample_strategy.py:155-156 | on an n-by-n grid, unravel_index of f is (f // n, f % n), and (f // n) * n + f % n is f |
| Tensor.NeighboursInGrid | utils/sample_strategy.py:83-97 | each bounds test on row and column keeps the neighbour's flat position inside the grid |
| Tensor.SumNonNegative | utils/sample_strategy.py:149 | a tensor with no negative entry has a non-negative sum, and a positive sum when some entry is positive |
| Tensor.NormalizedSumsToOne | utils/sample_strategy.py:165 | `Phi /= np.sum(Phi)` with a non-zero total gives total mass 1, and a probability tensor when no entry was negative |
| Tensor.OneHotIsDistribution | utils/sample_strategy.py:322-324 | a tensor of zeros with a single 1 is a probability tensor, and normalising leaves it unchanged |
| Tensor.SetWhere | utils/sample_strategy.py:163 | `phi[mask] = v` in place: masked cells take v, the others keep their value |
| Tensor.SubtractAll | utils/sample_strategy.py:181 | `phi = phi - x`: every cell is lowered by x |
| Tensor.DivideAll | utils/sample_strategy.py:165 | `phi /= t`: every cell is divided by t |
| Strategy.Select | utils/sample_strategy.py:321-325 | the helper as its signature intends: it returns the tuple and a tensor of shape [n]*k holding 1 at the tuple and 0 everywhere else, which is a probability tensor |
| Strategy.IndToProbMatrixOneZero | utils/sample_strategy.py:321-325 | writing one 1 into a fresh zero tensor gives exactly Select's result |
| Strategy.SelectFlat | utils/sample_strategy.py:329-340 | a flat cell decoded with unravel_index and selected one-hot: the action encodes back to the cell, on an n-by-n grid it is (c // n, c % n), and the selection is sound |
| Strategy.OneHotAsCalled | utils/sample_strategy.py:321-325 | the helper as the 2-player strategies call it (row, col, n): it raises IndexError if and only if row >= col; otherwise the sample is row alone and the tensor has col^n cells, holding 1 exactly on the sub-tensor at index row of the first axis |
| Strategy.OneHotAsCalledOnTwoByTwo | utils/sample_strategy.py:44 | on a 2-by-2 game no call gives the intended 2-by-2 one-hot tensor: cell (0, 1) yields a one-cell tensor where Select yields [0, 1, 0, 0] |
| Strategy.Fallback | utils/sample_strategy.py:41-44 | nothing if and only if every cell is observed, otherwise the one-hot selection of the first unobserved cell |
| Strategy.DescendingActive | utils/sample_strategy.py:30-44 | always the fallback: nothing if and only if every cell is observed, else the first unobserved cell |
| Strategy.RandomIndex | utils/sample_strategy.py:103-107 | nothing if and only if every cell is observed, else the first unobserved cell, never a random one |
| Strategy.OptThenRandom | utils/sample_strategy.py:108-117 | the first OptPhi maximum when it is unobserved, otherwise the fallback; nothing if and only if every cell is observed |
| Strategy.PesThenRandom | utils/sample_strategy.py:118-127 | the first PesPhi maximum when it is unobserved, otherwise the fallback; nothing if and only if every cell is observed |
| Strategy.LowThenRandom | utils/sample_strategy.py:128-132 | the first PesPhi maximum when it is unobserved, and nothing otherwise |
| Strategy.Neighbours | utils/sample_strategy.py:83-97 | the four probes, left, right, next row, previous row; every probed position is inside the grid and next to the OptPhi maximum along a row or a column |
| Strategy.ProbeNeighbours | utils/sample_strategy.py:83-97 | a cell the probe returns is unobserved |
| Strategy.ProbeNeighboursSpec | utils/sample_strategy.py:83-97 | the probe returns the first unobserved cell among left, right, next row and previous row, in that order |
| Strategy.NearbyCell | utils/sample_strategy.py:76-102 | the selected cell is unobserved, and there is none if and only if every cell is observed |
| Strategy.NearbyCellSpec | utils/sample_strategy.py:76-102 | the OptPhi maximum if unobserved; else the first unobserved of its probed neighbours; else the first unobserved cell |
| Strategy.NearbyThenRandom | utils/sample_strategy.py:76-102 | nothing if and only if every cell is observed; any selection is sound and unobserved |
| Strategy.NearbyThenRandomSelects | utils/sample_strategy.py:78-81 | the outcome is the one-hot selection of NearbyCell's cell, in particular of the OptPhi maximum when it is unobserved |
| Strategy.ActiveUnknown | utils/sample_strategy.py:58-61 | exactly the unobserved cells whose OptPhi reaches max(PesPhi), in increasing row-major order |
| Strategy.CollectActive | utils/sample_strategy.py:58-61 | the collecting loop builds exactly ActiveUnknown's list |
| Strategy.RandomActive | utils/sample_strategy.py:45-75 | the unobserved OptPhi maximum; else, with more than one candidate, the drawn candidate; else the fallback; nothing if and only if every cell is observed; any selected cell is unobserved |
| Strategy.MatchBonusOrder | utils/sample_strategy.py:138-147 | the OptPhi maximum gets the largest bonus, a cell on its row or column at least 3, a cell off both exactly 3, and on a 2-by-2 grid every bonus is 3 |
| Strategy.MatchWeightsOrdered | utils/sample_strategy.py:133-147 | every weight is positive, none exceeds the maximum's, row and column cells weigh at least as much as the others, and a 2-by-2 grid is uniform |
| Strategy.MatchDistribution | utils/sample_strategy.py:149 | prob_match's normalised tensor has one entry per cell and is a probability tensor |
| Strategy.MatchDistributionSpec | utils/sample_strategy.py:149 | after normalising, the tensor is a probability tensor with every entry positive, and the weights keep their order |
| Strategy.MatchUpdate | utils/sample_strategy.py:141-147 | each branch of the double loop adds to cell (a, b) exactly what takes its start value to its weight |
| Strategy.MatchStartMatrix | utils/sample_strategy.py:136-138 | ones, with the maximum's bonus already added |
| Strategy.AddRowBonus | utils/sample_strategy.py:141-147 | the inner loop brings row a to its weights and leaves every other row unchanged |
| Strategy.MatchMatrix | utils/sample_strategy.py:136-147 | the unnormalised matrix holds every cell's weight |
| Strategy.ProbMatch | utils/sample_strategy.py:133-157 | the result is (choice // n, choice % n) with the normalised weight tensor, and the selection is sound |
| Strategy.Drawn | utils/sample_strategy.py:165-169 | a draw from w / sum(w) decoded row-major, or InvalidProbabilities when sum(w) is 0 or an entry of w / sum(w) is negative; the selection is sound |
| Strategy.ActiveWeights | utils/sample_strategy.py:160-163 | one weight per cell: 1e-8 where OptPhi < max(PesPhi), OptPhi elsewhere; no weight is negative when max(PesPhi) >= 0, and every weight is positive when max(PesPhi) > 0 |
| Strategy.ActiveWeightsDrawable | utils/sample_strategy.py:163-169 | when max(PesPhi) > 0, np.random.choice accepts prob_active's normalised tensor, which is a probability tensor |
| Strategy.CopyOptPhi | utils/sample_strategy.py:160 | `np.copy(game.OptPhi)` is a fresh array holding OptPhi |
| Strategy.NormaliseAndDraw | utils/sample_strategy.py:165-169 | normalising in place and drawing give the outcome Drawn describes for the tensor as it was; with a non-zero total the array then holds the normalised tensor, and a drawn outcome carries exactly that tensor |
| Strategy.ProbActive | utils/sample_strategy.py:158-171 | the draw is from OptPhi with every cell below max(PesPhi) set to 1e-8, normalised; the outcome is sound |
| Strategy.ShiftedWeights | utils/sample_strategy.py:181-183 | one weight per cell, none negative |
| Strategy.ShiftedWeightsSpec | utils/sample_strategy.py:181-183 | each cell is 1e-8 where OptPhi < max(PesPhi), otherwise OptPhi - min(OptPhi); no entry is negative, so drawing fails only on a zero total |
| Strategy.ProbActive2 | utils/sample_strategy.py:173-191 | the draw is from that shifted and masked tensor; the outcome is sound |
| Strategy.Active4Weights | utils/sample_strategy.py:236-247 | one weight per cell, none negative |
| Strategy.Active4WeightsSpec | utils/sample_strategy.py:236-247 | per cell: 1e-15 where Values < 0; OptPhi - min(OptPhi) where OptPhi reaches max(PesPhi); otherwise 1e-15 if max(PesPhi) > 0, else -min(OptPhi); no entry is negative |
| Strategy.Active4Tensor | utils/sample_strategy.py:236-247 | the in-place masking and shifting produce Active4Weights |
| Strategy.Active4Candidate | utils/sample_strategy.py:248-259 | the tensor prob_active_4 draws from has one non-negative entry per cell; np.random.choice accepts it exactly when its total is not zero; the one-hot OptPhi maximum, used unless that cell is observed and u < 0.1, is always accepted and is a probability tensor |
| Strategy.ProbActive4 | utils/sample_strategy.py:233-275 | the one-hot OptPhi maximum unless that cell is observed and u < 0.1, in which case it draws from the normalised Active4Weights; the outcome is sound |
| Strategy.Reversed | utils/sample_strategy.py:333 | the list reversed, element by element |
| Strategy.TopCells | utils/sample_strategy.py:329-333 | the last min(100, n^k) cells of the argsort, largest first |
| Strategy.TopCellsDescending | utils/sample_strategy.py:329-333 | the scanned cells come in non-increasing OptPhi order, and the first holds the global maximum |
| Strategy.DescendingActive3 | utils/sample_strategy.py:346-352 | the one-hot selection of a cell holding the maximum of OptPhi |
| Strategy.ScanPromising | utils/sample_strategy.py:338-340 | the position of the first scanned cell that is unobserved with OptPhi > max(PesPhi), or none if and only if no scanned cell qualifies |
| Strategy.FirstPromisingUnique | utils/sample_strategy.py:338-340 | at most one position is the first qualifying one |
| Strategy.DescendingActive2 | utils/sample_strategy.py:327-344 | IndexError with fewer than 2 cells; the top cell when the second's OptPhi is below max(PesPhi); else the first qualifying scanned cell; else the 2-D np.random.choice failure; the outcome is sound |
| Strategy.CodeOf | utils/sample_strategy.py:3-29 | a code string maps to the strategy whose name it spells, and to nothing if it spells none |
| Strategy.Dispatch | utils/sample_strategy.py:4-28 | each code gives exactly its strategy's outcome: the "d", "nr", "r", "or", "lr", "pr" and "da2" strategies' results, random_active's and descending_active_2's full contracts, (choice // n, choice % n) with prob_match's tensor for "pm", the draw from prob_active's weights for "pa", the NotModelled failure for "pa3", and for "pa4" the one-hot OptPhi maximum or the draw from its mixed weights; every selection is sound, and every grid strategy except prob_match selects only unobserved cells |
| Strategy.DispatchGrid | utils/sample_strategy.py:4-19 | the same, for the codes of the 2-player strategies |
| Strategy.DispatchTensor | utils/sample_strategy.py:20-28 | the same, for the codes of the strategies over the whole tensor |
| Strategy.SampleIndex | utils/sample_strategy.py:3-29 | an unknown code gives nothing; a known code gives exactly the outcome Dispatch states for it; every selection is sound |
| GameMaker.Utility | utils/game_maker.py:26-36 | player p's utility at a cell; wherever p plays strategy 0 it is the constant 0.25 |
| GameMaker.StridedSplit | utils/game_maker.py:28-29 | a flat position built from a prefix, a coordinate c below n and a suffix below the stride has coordinate c on that axis, and base cell the same position with c set to 0 |
| GameMaker.ShiftDown | utils/game_maker.py:28-29 | moving one stride down along a player's axis lowers its strategy by one and keeps the rest of the joint action |
| GameMaker.ActionCoord | utils/game_maker.py:28-29 | player p's strategy at the flat position of action a is a[p], and the base cell is a with a[p] set to 0 |
| GameMaker.UtilityClosedForm | utils/game_maker.py:26-36 | u_p(a) = Phi(a) - Phi(a with player p on strategy 0) + 0.25 |
| GameMaker.RawZeroAtOrigin | utils/game_maker.py:23-36 | where player p plays strategy 0 its utility is the constant 0.25 |
| GameMaker.UtilityRecurrence | utils/game_maker.py:27-32 | one strategy up along p's axis, the utility grows by exactly the growth of the potential |
| GameMaker.PotentialIdentity | utils/game_maker.py:26-36 | when two joint actions differ only in player p's strategy, p's utilities differ by exactly the potential's difference (an exact potential game) |
| GameMaker.UtilityRange | utils/game_maker.py:20-36 | with every potential entry in [-0.125, 0.125], every utility lies in [0, 0.5] |
| GameMaker.AssignSlice | utils/game_maker.py:31-32 | the slice where p plays i becomes slice i - 1 plus the potential step; every other cell is unchanged |
| GameMaker.FillPlayer | utils/game_maker.py:27-32 | from zeros, player p's tensor becomes Phi(a) - Phi(a with p on strategy 0); other players' tensors are unchanged |
| GameMaker.AddOffset | utils/game_maker.py:35-36 | adds 0.25 to every cell of player p's tensor and to nothing else |
| GameMaker.MakeRandomGame | utils/game_maker.py:17-38 | given randint's draws in [-12500, 12500], the potential is the draw and lies in [-0.125, 0.125], and there are k fresh utility tensors of n^k cells, each equal to Utility and inside [0, 0.5] |
| GameMaker.MakeGame | utils/game_maker.py:4-46 | "random" builds that game, with the same ranges; "congestion" returns (n, k, means); any other type string returns nothing |
| Runner.GameKindOf | multi_runner.py:150-155 | a game type string maps to the game it names, and to nothing otherwise |
| Runner.SolverKindOf | multi_runner.py:157-164 | a solver string maps to the solver it names, and to nothing otherwise |
| Runner.History | multi_runner.py:171-181 | after t rounds the run has passed t joint actions, each inside the grid, to Game.sample |
| Runner.HistoryPrefix | multi_runner.py:181 | later rounds only append to the samples; earlier ones stay as they were |
| Runner.SampleDecodesChoice | multi_runner.py:177-178 | round i's sample is the row-major decoding of its drawn flat choice, lies inside the grid, and encodes back to that choice |
| Runner.RoundExtends | multi_runner.py:174-186 | appending one round's regret, total, sample and tensor keeps the run's state exact |
| Runner.PlayRound | multi_runner.py:174-186 | the round fails exactly when np.random.choice rejects the solver's tensor; otherwise it appends that round's regret, the new running total, the decoded sample and the tensor |
| Runner.PlayRun | multi_runner.py:168-186 | the run fails exactly when the tensor of some round is not a probability tensor; otherwise every list of the run holds exactly the values of rounds 0 .. t-1, with cumulative[t] the sum of regrets 0 .. t |
| Runner.CumulativeStep | multi_runner.py:185-186 | each cumulative regret is the previous one plus the round's regret, starting from 0 in every run |
| Runner.RunMain | multi_runner.py:140-195 | no runs ends in the NameError for `reg`, an unknown game in the one for `Game`, and an unknown solver with at least one round in the one for `algorithm`; otherwise a run with a tensor that is not a probability tensor ends in np.random.choice's ValueError; success exactly when none of these happens, and then every run's lists are exact and av_regret is the last run's |

## Left out

- Printing, plotting, the command line, and saving results and logs (multi_runner.py outside lines 140-195) are I/O, so they are not modelled.
- prob_active_3 (utils/sample_strategy.py:193-231) reads the hidden game's UnknownGame and plots it. sample_index's "pa3" is modelled as `Fails(NotModelled)`.
- prob_active_5 is not dispatched by sample_index and is not modelled.
- Strategy.NormaliseAndDraw: the array's contents after a zero total are not stated. The source divides by zero there and fills the tensor with NaN or infinities before np.random.choice raises.
- Runner.PlayRound: np.random.choice accepts a tensor whose total is within a small tolerance of 1. The model asks for an exact total of 1, so it does not capture this tolerance.
- Floating point is not modelled: tensors hold exact reals. The model therefore does not capture rounding in sums and normalisation, or a normalised total that differs from 1 by rounding.
- Strategy.DescendingActive: the test of lines 34-39 compares against NaN, and `NaN > x` is False for every x, so the branch is dead for every input. The model uses the fallback alone.
- NaN values are a boolean mask. The model has no NaN arithmetic, and assumes KnownU1 and KnownUs[0] are the same tensor of player 0's observed utilities.
- Strategy.DescendingActive2: the last branch calls np.random.choice on a 2-D array. It is modelled as the exception `Fails(NotOneDimensional)`, not as a draw.
- Strategy.ProbMatch: the source returns (i, j, prob_matrix) with i and j one-element arrays. It is modelled as `Chosen([i, j], prob)`, like the other strategies.
- The random draws are parameters. Their distributions are not modelled: which index np.random.choice picks, the tie order of np.argsort, and randint's and uniform's values.
- The congestion game's mean vectors are a parameter, so their range (0, 1) is not stated.
- GameMaker.MakeRandomGame and Runner.RunMain require n >= 1. An empty strategy set, where numpy builds empty tensors, is not modelled.
- The 2-player strategies require k == 2, the n-by-n shape the source hard-codes.
- Runner.RunMain: the game, solver and regret classes (potential_game, congestion_game, the solvers and regret) are not part of this model. Their results are oracles keyed by the run index and the samples so far. The oracle's run index stands for each run's fresh make_game call and fresh objects.
- Runner.RunMain: the solver's tensor is assumed to have prob.size == n^k and to be decoded with shape [n]*k, which np.unravel_index(choice, prob.shape) does when prob has that shape.
- Runner.SampleDecodesChoice: requires every drawn choice to be below n^k, which np.random.choice over np.arange(prob.size) guarantees.

## Findings

| source | as written | input that shows it | evidently intended | confidence | as-written member | corrected member |
|---|---|---|---|---|---|---|
| utils/sample_strategy.py:44 | The 2-player strategies call `ind_to_prob_matrix_one_zero(row, col, game.n)`, but the helper's parameters are (sample_tuple, n, k) (lines 321-325). It therefore builds np.zeros([col] * n), sets the whole sub-tensor at index row to 1, returns row alone as the sample, and raises IndexError when row >= col. | A 2-by-2 game whose first unobserved cell is (0, 1): the call returns sample 0 with the 1-cell tensor [1.0]. Cells in column 0 raise IndexError. | The tuple (row, col) with an n-by-n tensor holding 1 at (row, col) and 0 elsewhere, as the callers on lines 336-344 do | not executed | Strategy.OneHotAsCalled, Strategy.OneHotAsCalledOnTwoByTwo | Strategy.Select |
