/** The run/round loop of main in multi_runner.py: for every run a fresh game,
    solver and regret object; per round the solver's probability tensor, a
    drawn flat choice decoded row-major into a joint action, one sample of the
    game at that action, and the regret of the tensor, with the running
    cumulative regret of the run. The game, solver and regret classes live in
    modules outside this model; they appear as the oracles of Collaborators. */
module Runner {
  import opened Tensor

  /** The game types main builds (lines 150-155). */
  datatype GameKind = RandomGame | CongestionGame

  function GameSpelling(g: GameKind): string
  {
    match g
    case RandomGame => "random"
    case CongestionGame => "congestion"
  }

  function GameKindOf(s: string): (r: Option<GameKind>)
    ensures r.Some? ==> GameSpelling(r.value) == s
    ensures forall g :: GameSpelling(g) == s ==> r == Some(g)
  {
    if s == "random" then Some(RandomGame)
    else if s == "congestion" then Some(CongestionGame)
    else None
  }

  /** The solvers main binds to `algorithm` (lines 157-164). */
  datatype SolverKind = Optimistic | NashUcb | ExpWeight | NashCa

  function SolverSpelling(s: SolverKind): string
  {
    match s
    case Optimistic => "optimistic"
    case NashUcb => "nash_ucb"
    case ExpWeight => "exp_weight"
    case NashCa => "nash_ca"
  }

  function SolverKindOf(s: string): (r: Option<SolverKind>)
    ensures r.Some? ==> SolverSpelling(r.value) == s
    ensures forall k :: SolverSpelling(k) == s ==> r == Some(k)
  {
    if s == "optimistic" then Some(Optimistic)
    else if s == "nash_ucb" then Some(NashUcb)
    else if s == "exp_weight" then Some(ExpWeight)
    else if s == "nash_ca" then Some(NashCa)
    else None
  }

  /** The collaborators of one simulation. Each oracle takes the run index,
      which stands for that run's freshly made game, solver, regret object and
      random draws, and the joint actions sampled so far in the run, which is
      the state those objects have built up.
      - nextProb: algorithm.next_sample_prob(Game), a flat tensor;
      - choose: the flat index np.random.choice draws in round t from it;
      - regretOf: reg.regrets(e, prob), after the round's sample;
      - avRegret: reg.av_regret(e), from the run's samples and tensors. */
  datatype Collaborators = Collaborators(
    nextProb: (nat, seq<seq<nat>>) -> seq<real>,
    choose: (nat, nat, seq<real>) -> nat,
    regretOf: (nat, seq<seq<nat>>, seq<real>) -> real,
    avRegret: (nat, seq<seq<nat>>, seq<seq<real>>) -> real)

  /** np.random.choice over np.arange(prob.size) draws a cell of the [n]*k tensor. */
  ghost predicate ChoicesInRange(c: Collaborators, n: nat, k: nat)
  {
    forall r: nat, t: nat, prob: seq<real> :: c.choose(r, t, prob) < Pow(n, k)
  }

  // ---------------------------------------------------------------------
  // One run, as a function of its rounds

  /** The joint actions Game.sample receives in the first t rounds of run r. */
  function History(c: Collaborators, n: nat, k: nat, r: nat, t: nat): (h: seq<seq<nat>>)
    requires n >= 1
    ensures |h| == t && forall i :: 0 <= i < t ==> |h[i]| == k && InGrid(h[i], n)
    decreases t, 0
  {
    if t == 0 then []
    else History(c, n, k, r, t - 1) + [Unravel(Choice(c, n, k, r, t - 1), n, k)]
  }

  /** The probability tensor of round t of run r. */
  function Prob(c: Collaborators, n: nat, k: nat, r: nat, t: nat): seq<real>
    requires n >= 1
  {
    c.nextProb(r, History(c, n, k, r, t))
  }

  /** The flat choice drawn in round t of run r. */
  function Choice(c: Collaborators, n: nat, k: nat, r: nat, t: nat): nat
    requires n >= 1
    decreases t, 1
  {
    c.choose(r, t, c.nextProb(r, History(c, n, k, r, t)))
  }

  /** The regret recorded in round t of run r: the regret object sees the game
      after that round's sample and the tensor the choice was drawn from. */
  function Regret(c: Collaborators, n: nat, k: nat, r: nat, t: nat): real
    requires n >= 1
  {
    c.regretOf(r, History(c, n, k, r, t + 1), Prob(c, n, k, r, t))
  }

  /** Later rounds only extend the history: Game.sample is called exactly
      once per round and earlier samples stay as they were. */
  lemma {:induction false} HistoryPrefix(c: Collaborators, n: nat, k: nat, r: nat, i: nat, t: nat)
    requires n >= 1 && i <= t
    ensures History(c, n, k, r, t)[..i] == History(c, n, k, r, i)
  {
    if i < t {
      HistoryPrefix(c, n, k, r, i, t - 1);
      assert History(c, n, k, r, t)[..t - 1] == History(c, n, k, r, t - 1);
      assert History(c, n, k, r, t)[..i] == History(c, n, k, r, t)[..t - 1][..i];
    }
  }

  /** Round i's sample is the row-major decoding of its flat choice (lines
      177-178): every coordinate is below n and flattening gives the choice back. */
  lemma SampleDecodesChoice(c: Collaborators, n: nat, k: nat, r: nat, i: nat, t: nat)
    requires n >= 1 && ChoicesInRange(c, n, k) && i < t
    ensures History(c, n, k, r, t)[i] == Unravel(Choice(c, n, k, r, i), n, k)
    ensures InGrid(History(c, n, k, r, t)[i], n)
    ensures Flatten(History(c, n, k, r, t)[i], n) == Choice(c, n, k, r, i)
  {
    HistoryPrefix(c, n, k, r, i + 1, t);
    assert History(c, n, k, r, t)[i] == History(c, n, k, r, t)[..i + 1][i];
    assert Choice(c, n, k, r, i) < Pow(n, k);
    FlattenUnravel(Choice(c, n, k, r, i), n, k);
  }

  // ---------------------------------------------------------------------
  // The loops

  /** One run's lists: regrets, cumulative regrets, the samples passed to
      Game.sample and the tensors of every round. */
  datatype Run = Run(regrets: seq<real>, cumulative: seq<real>, samples: seq<seq<nat>>, probs: seq<seq<real>>)

  /** The state after round t of run r, as the loop below builds it. */
  predicate RunUpTo(c: Collaborators, n: nat, k: nat, r: nat, t: nat, run: Run)
    requires n >= 1
  {
    && run.samples == History(c, n, k, r, t)
    && |run.regrets| == t && |run.cumulative| == t && |run.probs| == t
    && (forall i :: 0 <= i < t ==> run.regrets[i] == Regret(c, n, k, r, i))
    && (forall i :: 0 <= i < t ==> run.probs[i] == Prob(c, n, k, r, i))
    && (forall i :: 0 <= i < t ==> run.cumulative[i] == Sum(run.regrets[..i + 1]))
  }

  /** One round appends the round's regret, its running total, its sample and
      its tensor, and so keeps RunUpTo. */
  lemma RoundExtends(c: Collaborators, n: nat, k: nat, r: nat, t: nat, run: Run, total: real)
    requires n >= 1 && RunUpTo(c, n, k, r, t, run) && total == Sum(run.regrets)
    ensures Sum(run.regrets + [Regret(c, n, k, r, t)]) == total + Regret(c, n, k, r, t)
    ensures RunUpTo(c, n, k, r, t + 1, Run(run.regrets + [Regret(c, n, k, r, t)],
                                           run.cumulative + [total + Regret(c, n, k, r, t)],
                                           run.samples + [Unravel(Choice(c, n, k, r, t), n, k)],
                                           run.probs + [Prob(c, n, k, r, t)]))
  {
    var regs := run.regrets + [Regret(c, n, k, r, t)];
    var cum := run.cumulative + [total + Regret(c, n, k, r, t)];
    assert regs[..t] == run.regrets;
    forall i | 0 <= i < t + 1
      ensures cum[i] == Sum(regs[..i + 1])
    {
      if i < t {
        assert regs[..i + 1] == run.regrets[..i + 1];
      } else {
        assert regs[..i + 1] == regs;
      }
    }
  }

  /** np.random.choice(np.arange(prob.size), p=prob.flatten()) accepts the
      tensor of every one of the first t rounds of run r: no entry negative,
      total mass 1. */
  predicate RoundsDrawable(c: Collaborators, n: nat, k: nat, r: nat, t: nat)
    requires n >= 1
  {
    forall i :: 0 <= i < t ==> IsDistribution(Prob(c, n, k, r, i))
  }

  /** One round, lines 174-186: the tensor, the drawn choice, its decoding,
      the sample, the regret and the running total, appended in that order.
      drawable is false when np.random.choice rejects the tensor and raises. */
  method PlayRound(c: Collaborators, n: nat, k: nat, r: nat, t: nat, run: Run, total: real)
    returns (drawable: bool, next: Run, total': real)
    requires n >= 1 && RunUpTo(c, n, k, r, t, run) && total == Sum(run.regrets)
    ensures drawable <==> IsDistribution(Prob(c, n, k, r, t))
    ensures drawable ==> RunUpTo(c, n, k, r, t + 1, next) && total' == Sum(next.regrets)
    ensures drawable ==> total' == total + Regret(c, n, k, r, t)
    ensures drawable ==>
      next == Run(run.regrets + [Regret(c, n, k, r, t)], run.cumulative + [total'],
                  run.samples + [Unravel(Choice(c, n, k, r, t), n, k)], run.probs + [Prob(c, n, k, r, t)])
  {
    var prob := c.nextProb(r, run.samples);
    assert prob == Prob(c, n, k, r, t);
    if !IsDistribution(prob) {
      return false, run, total;
    }
    drawable := true;
    var choice := c.choose(r, t, prob);
    assert choice == Choice(c, n, k, r, t);
    var sample := Unravel(choice, n, k);
    var samples := run.samples + [sample];
    assert samples == History(c, n, k, r, t + 1);
    var regret := c.regretOf(r, samples, prob);
    assert regret == Regret(c, n, k, r, t);
    total' := total + regret;
    next := Run(run.regrets + [regret], run.cumulative + [total'], samples, run.probs + [prob]);
    RoundExtends(c, n, k, r, t, run, total);
  }

  /** The round loop of lines 168-186: the cumulative total starts at 0 and
      takes each round's regret as it is appended. */
  method PlayRun(c: Collaborators, n: nat, k: nat, r: nat, timesteps: nat) returns (drawable: bool, run: Run)
    requires n >= 1
    ensures drawable <==> RoundsDrawable(c, n, k, r, timesteps)
    ensures drawable ==> RunUpTo(c, n, k, r, timesteps, run)
  {
    run := Run([], [], [], []);
    var total := 0.0;
    for t := 0 to timesteps
      invariant RunUpTo(c, n, k, r, t, run)
      invariant total == Sum(run.regrets)
      invariant RoundsDrawable(c, n, k, r, t)
    {
      var ok, next, total' := PlayRound(c, n, k, r, t, run, total);
      if !ok {
        assert !IsDistribution(Prob(c, n, k, r, t));
        return false, run;
      }
      run, total := next, total';
    }
    drawable := true;
  }

  /** The exceptions main can end in: the NameErrors of `Game` unbound for an
      unknown game type, `algorithm` unbound for an unknown solver and `reg`
      unbound after zero runs, and the ValueError of np.random.choice for a
      tensor that is not a probability distribution. */
  datatype Failure = UnboundGame | UnboundSolver | UnboundRegret | InvalidProbabilities

  datatype Result<T> = Success(value: T) | Failure(error: Failure)

  /** What main hands to save_simulation_results, with the samples of every run. */
  datatype Simulation = Simulation(regrets: seq<seq<real>>, cumulative: seq<seq<real>>, samples: seq<seq<seq<nat>>>, avRegret: real)

  /** main's run/round loop (lines 140-195), without the printing and the
      saving of the results. */
  method RunMain(n: nat, k: nat, timesteps: nat, runs: nat, game: string, solver: string, c: Collaborators)
    returns (res: Result<Simulation>)
    requires n >= 1
    ensures runs == 0 ==> res == Failure(UnboundRegret)
    ensures runs > 0 && GameKindOf(game).None? ==> res == Failure(UnboundGame)
    ensures runs > 0 && GameKindOf(game).Some? && SolverKindOf(solver).None? && timesteps > 0 ==>
      res == Failure(UnboundSolver)
    ensures (&& runs > 0 && GameKindOf(game).Some? && (SolverKindOf(solver).Some? || timesteps == 0)
             && exists r :: 0 <= r < runs && !RoundsDrawable(c, n, k, r, timesteps)) ==>
      res == Failure(InvalidProbabilities)
    ensures res.Success? <==>
      && runs > 0 && GameKindOf(game).Some? && (SolverKindOf(solver).Some? || timesteps == 0)
      && (forall r :: 0 <= r < runs ==> RoundsDrawable(c, n, k, r, timesteps))
    ensures res.Success? ==>
      && |res.value.regrets| == runs && |res.value.cumulative| == runs && |res.value.samples| == runs
      && (forall r :: 0 <= r < runs ==>
            && res.value.samples[r] == History(c, n, k, r, timesteps)
            && |res.value.regrets[r]| == timesteps && |res.value.cumulative[r]| == timesteps
            && (forall t :: 0 <= t < timesteps ==> res.value.regrets[r][t] == Regret(c, n, k, r, t))
            && (forall t :: 0 <= t < timesteps ==>
                  res.value.cumulative[r][t] == Sum(res.value.regrets[r][..t + 1])))
      && res.value.avRegret == c.avRegret(runs - 1, History(c, n, k, runs - 1, timesteps),
                                          ProbsOf(c, n, k, runs - 1, timesteps))
  {
    var regrets: seq<seq<real>> := [];
    var cumulative: seq<seq<real>> := [];
    var samples: seq<seq<seq<nat>>> := [];
    var last: Option<Run> := None;
    for r := 0 to runs
      invariant r > 0 ==> GameKindOf(game).Some? && (SolverKindOf(solver).Some? || timesteps == 0)
      invariant forall q :: 0 <= q < r ==> RoundsDrawable(c, n, k, q, timesteps)
      invariant RunsRecorded(c, n, k, timesteps, r, regrets, cumulative, samples)
      invariant last.Some? <==> r > 0
      invariant r > 0 ==> RunUpTo(c, n, k, r - 1, timesteps, last.value)
    {
      if GameKindOf(game).None? {
        return Failure(UnboundGame);
      }
      if SolverKindOf(solver).None? && timesteps > 0 {
        // the first round calls next_sample_prob on the unbound `algorithm`
        return Failure(UnboundSolver);
      }
      var drawable, run := PlayRun(c, n, k, r, timesteps);
      if !drawable {
        return Failure(InvalidProbabilities);
      }
      RecordRun(c, n, k, timesteps, r, regrets, cumulative, samples, run);
      regrets := regrets + [run.regrets];
      cumulative := cumulative + [run.cumulative];
      samples := samples + [run.samples];
      last := Some(run);
    }
    if last.None? {
      return Failure(UnboundRegret);
    }
    ProbsOfRun(c, n, k, runs - 1, timesteps, last.value);
    var av := c.avRegret(runs - 1, last.value.samples, last.value.probs);
    return Success(Simulation(regrets, cumulative, samples, av));
  }

  /** The lists main has appended after its first r runs: per run, the
      samples, the regrets of every round and their running totals. */
  predicate RunsRecorded(c: Collaborators, n: nat, k: nat, timesteps: nat, r: nat,
                         regrets: seq<seq<real>>, cumulative: seq<seq<real>>, samples: seq<seq<seq<nat>>>)
    requires n >= 1
  {
    && |regrets| == r && |cumulative| == r && |samples| == r
    && forall q :: 0 <= q < r ==>
        && samples[q] == History(c, n, k, q, timesteps)
        && |regrets[q]| == timesteps && |cumulative[q]| == timesteps
        && (forall t :: 0 <= t < timesteps ==> regrets[q][t] == Regret(c, n, k, q, t))
        && (forall t :: 0 <= t < timesteps ==> cumulative[q][t] == Sum(regrets[q][..t + 1]))
  }

  /** Appending run r's lists (lines 188-190) keeps RunsRecorded. */
  lemma RecordRun(c: Collaborators, n: nat, k: nat, timesteps: nat, r: nat,
                  regrets: seq<seq<real>>, cumulative: seq<seq<real>>, samples: seq<seq<seq<nat>>>, run: Run)
    requires n >= 1 && RunsRecorded(c, n, k, timesteps, r, regrets, cumulative, samples)
    requires RunUpTo(c, n, k, r, timesteps, run)
    ensures RunsRecorded(c, n, k, timesteps, r + 1, regrets + [run.regrets],
                         cumulative + [run.cumulative], samples + [run.samples])
  {
  }

  /** The tensors of the first t rounds of run r. */
  function ProbsOf(c: Collaborators, n: nat, k: nat, r: nat, t: nat): (ps: seq<seq<real>>)
    requires n >= 1
    ensures |ps| == t && forall i :: 0 <= i < t ==> ps[i] == Prob(c, n, k, r, i)
  {
    seq(t, i requires 0 <= i < t => Prob(c, n, k, r, i))
  }

  lemma ProbsOfRun(c: Collaborators, n: nat, k: nat, r: nat, t: nat, run: Run)
    requires n >= 1 && RunUpTo(c, n, k, r, t, run)
    ensures run.probs == ProbsOf(c, n, k, r, t)
  {
  }

  /** Each cumulative regret is the previous one plus the round's regret, and
      a run's first cumulative regret is its first regret: nothing carries
      over from an earlier run. */
  lemma CumulativeStep(c: Collaborators, n: nat, k: nat, r: nat, t: nat, run: Run, i: nat)
    requires n >= 1 && RunUpTo(c, n, k, r, t, run) && i < t
    ensures run.cumulative[i] == (if i == 0 then 0.0 else run.cumulative[i - 1]) + Regret(c, n, k, r, i)
  {
    assert run.regrets[..i + 1][..i] == run.regrets[..i];
    assert Sum(run.regrets[..i + 1]) == Sum(run.regrets[..i]) + run.regrets[i];
  }
}
