/** One iteration of the emulator's loop, and runs of the loop. */
module EmulatorStep {
  import opened Types
  import opened HartState
  import opened Instruction
  import opened Traps
  import opened Interrupts

  /** A run goes on, or a fatal trap has ended it, or the process has panicked. */
  datatype Status = Running | Stopped | Panicked

  /** The environment's answers are those of the iteration. */
  function Provide(m: Hart, env: Env): Hart { m.(bus := m.bus.(env := env)) }

  /** Take the pending interrupt, if there is one. */
  function Dispatch(m: Hart): Outcome<Hart> {
    match CheckPending(m)
    case Ok((checked, None)) => Ok(checked)
    case Ok((checked, Some(i))) =>
      var (taken, r) := TakeInterrupt(checked, i);
      if r.Ok? then Ok(taken) else Panic
    case _ => Panic
  }

  /** Execute one instruction, and take the trap it raises. */
  function Perform(m: Hart): (Hart, Status) {
    var (done, r) := StepInstruction(m);
    match r
    case Ok(_) => (done, Running)
    case Panic => (done, Panicked)
    case Err(e) =>
      var (taken, trap) := TakeException(done, e);
      match trap
      case Ok(kind) => (taken, if kind == Fatal then Stopped else Running)
      case _ => (taken, Panicked)
  }

  /** One iteration: the devices, the interrupt, the instruction and its trap. */
  function Step(m: Hart, env: Env): (Hart, Status) {
    var ticked := Tick(Provide(m, env));
    match Dispatch(ticked)
    case Ok(ready) => Perform(ready)
    case _ => (ticked, Panicked)
  }

  /** Iterations until one ends the run or the environment is exhausted. */
  function Run(m: Hart, envs: seq<Env>): (Hart, Status)
    decreases |envs|
  {
    if envs == [] then (m, Running)
    else
      var (m', s) := Step(m, envs[0]);
      if s == Running then Run(m', envs[1..]) else (m', s)
  }

  /** A run one iteration longer is the run and then the iteration. */
  lemma {:induction false} RunOneMore(m: Hart, envs: seq<Env>, env: Env)
    ensures Run(m, envs + [env]) == if Run(m, envs).1 == Running then Step(Run(m, envs).0, env) else Run(m, envs)
    decreases |envs|
  {
    hide Step;
    if envs == [] {
      assert envs + [env] == [env];
      assert Run(Step(m, env).0, [env][1..]) == (Step(m, env).0, Running);
    } else {
      assert (envs + [env])[1..] == envs[1..] + [env];
      RunOneMore(Step(m, envs[0]).0, envs[1..], env);
    }
  }

  lemma RunNext(m: Hart, envs: seq<Env>, n: nat)
    requires n < |envs| && Run(m, envs[..n]).1 == Running
    ensures Run(m, envs[..n + 1]) == Step(Run(m, envs[..n]).0, envs[n])
  {
    hide Run, Step;
    RunOneMore(m, envs[..n], envs[n]);
    assert envs[..n] + [envs[n]] == envs[..n + 1];
  }

  /** A run that ended stays as it is. */
  lemma {:induction false} RunStops(m: Hart, envs: seq<Env>, n: nat)
    requires n <= |envs| && Run(m, envs[..n]).1 != Running
    ensures Run(m, envs) == Run(m, envs[..n])
    decreases |envs|
  {
    hide Step;
    if n > 0 {
      var (m', s) := Step(m, envs[0]);
      assert envs[..n][1..] == envs[1..][..n - 1];
      if s == Running {
        RunStops(m', envs[1..], n - 1);
      }
    }
  }

  /** What goes on after `n` iterations went on after every fewer. */
  lemma RunningBefore(m: Hart, envs: seq<Env>, k: nat, n: nat)
    requires k <= n <= |envs| && Run(m, envs[..n]).1 == Running
    ensures Run(m, envs[..k]).1 == Running
  {
    hide Run;
    assert envs[..n][..k] == envs[..k];
    if Run(m, envs[..k]).1 != Running {
      RunStops(m, envs[..n], k);
    }
  }
}
