/** The emulator's loop. */
module Emulator {
  import opened Types
  import opened HartState
  import opened Instruction
  import opened Traps
  import opened Interrupts
  import opened EmulatorStep
  import opened Invariants
  import opened Cpu
  import TrapHandling

  class Emulator {
    const cpu: Cpu
    var isTest: bool

    ghost predicate Valid() { cpu.Valid() && this !in cpu.Footprint() }

    constructor (dramSize: nat, env: Env)
      ensures Valid() && fresh(cpu.Footprint()) && IsReset(cpu.View()) && |cpu.View().bus.dram| == dramSize
      ensures !isTest && WellFormed(cpu.View())
    {
      cpu := new Cpu(dramSize, env);
      isTest := false;
      new;
      NewIsWellFormed(cpu.View());
    }

    /** Set binary data to the beginning of the DRAM. */
    method InitializeDram(data: seq<bv8>) returns (r: Outcome<()>)
      requires Valid()
      modifies cpu.bus.dram.dram
      ensures var m := old(cpu.View());
              if |data| <= |m.bus.dram| then
                r == Ok(()) && cpu.View() == m.(bus := m.bus.(dram := data + m.bus.dram[|data|..]))
              else r == Panic && cpu.View() == m
      ensures WellFormed(old(cpu.View())) ==> WellFormed(cpu.View())
    {
      hide WellFormed;
      ghost var m := cpu.View();
      r := cpu.bus.dram.Initialize(data);
      LoadingKeeps(m, cpu.View());
    }

    /** Append binary data to the virtio disk. */
    method InitializeDisk(data: seq<bv8>)
      requires Valid()
      modifies cpu.bus.virtio
      ensures var m := old(cpu.View());
              cpu.View() == m.(bus := m.bus.(virtio := m.bus.virtio.(disk := m.bus.virtio.disk + data)))
      ensures WellFormed(old(cpu.View())) ==> WellFormed(cpu.View())
    {
      hide WellFormed;
      ghost var m := cpu.View();
      cpu.bus.virtio.Initialize(data);
      LoadingKeeps(m, cpu.View());
    }

    method InitializePc(pc: bv64)
      requires Valid()
      modifies cpu`pc
      ensures cpu.View() == old(cpu.View()).(pc := pc)
      ensures WellFormed(old(cpu.View())) ==> WellFormed(cpu.View())
    {
      hide WellFormed;
      ghost var m := cpu.View();
      cpu.pc := pc;
      LoadingKeeps(m, cpu.View());
    }

    /** Take an interrupt. */
    method TakePending() returns (r: Outcome<()>)
      requires Valid()
      modifies cpu.Footprint()
      ensures var spec := Dispatch(old(cpu.View())); if r.Ok? then spec == Ok(cpu.View()) else spec.Panic?
      ensures unchanged(cpu.bus`env)
    {
      hide CheckPending, TakeInterrupt;
      var pending :- cpu.CheckPendingInterrupt();
      r := Ok(());
      if pending.Some? {
        r := TrapHandling.TakeInterruptTrap(cpu, pending.value);
      }
    }

    /** Execute a fetched instruction. */
    method ExecuteOne() returns (s: Status)
      requires Valid() && GetX(cpu.View(), 0) == 0
      modifies cpu.Footprint()
      ensures (cpu.View(), s) == Perform(old(cpu.View()))
      ensures unchanged(cpu.bus`env)
    {
      hide StepInstruction, TakeException, GetX;
      var done := cpu.ExecuteInstruction();
      match done
      case Ok(_) =>
        s := Running;
      case Panic =>
        s := Panicked;
      case Err(e) =>
        var trap := TrapHandling.TakeExceptionTrap(cpu, e);
        if !trap.Ok? {
          return Panicked;
        }
        s := if trap.value == Fatal then Stopped else Running;
    }

    /** One iteration of the loop. What a panic leaves behind is not specified. */
    method Iterate(env: Env) returns (s: Status)
      requires Valid() && WellFormed(cpu.View())
      modifies cpu.Footprint()
      ensures s == Step(old(cpu.View()), env).1
      ensures s != Panicked ==> cpu.View() == Step(old(cpu.View()), env).0 && WellFormed(cpu.View())
    {
      hide Tick, Dispatch, Perform, WellFormed;
      ghost var m := cpu.View();
      cpu.bus.env := env;
      Unrelated(m, Provide(m, env));
      // The devices move first.
      cpu.DevicesIncrement();
      TickKeeps(Provide(m, env));
      var taken := TakePending();
      if !taken.Ok? {
        return Panicked;
      }
      DispatchKeeps(Tick(Provide(m, env)));
      ZeroOf(cpu.View());
      s := ExecuteOne();
      if s != Panicked {
        StepKeeps(m, env);
      }
    }

    /** Start executing the emulator. Each iteration takes the environment's answers from `envs`; the
        loop ends when they are exhausted, or in a test after 10000 iterations. */
    method Start(envs: seq<Env>) returns (s: Status)
      requires Valid() && WellFormed(cpu.View())
      modifies cpu.Footprint()
      ensures var spent := Spent(isTest, envs);
              && s == Run(old(cpu.View()), spent).1
              && (s != Panicked ==> cpu.View() == Run(old(cpu.View()), spent).0 && WellFormed(cpu.View()))
    {
      hide Step, Run, Spent, WellFormed;
      var count := 0;
      s := Running;
      ghost var m := cpu.View();
      RunNothing(m, envs);
      while count < |envs|
        invariant count <= |envs| && (isTest ==> count <= 10000)
        invariant s == Running && (cpu.View(), Running) == Run(m, envs[..count]) && WellFormed(cpu.View())
      {
        // Tests end here.
        if isTest && count + 1 > 10000 {
          AllSpent(isTest, envs, count);
          return;
        }
        RunNext(m, envs, count);
        s := Iterate(envs[count]);
        count := count + 1;
        if s != Running {
          EndedEarly(m, isTest, envs, count);
          return;
        }
      }
      AllSpent(isTest, envs, count);
    }
  }

  lemma NewIsWellFormed(m: Hart)
    requires IsReset(m)
    ensures WellFormed(m)
  {
    hide WellFormed;
    ResetIsWellFormed(m);
  }

  /** A program, a disk and a start address do not disturb what every run keeps. */
  lemma LoadingKeeps(m: Hart, m': Hart)
    requires m' == m.(pc := m'.pc, bus := m'.bus)
    ensures WellFormed(m) ==> WellFormed(m')
  {
    hide WellFormed;
    if WellFormed(m) {
      Unrelated(m, m');
    }
  }

  /** The iterations that a run may take. */
  ghost function Spent(isTest: bool, envs: seq<Env>): seq<Env> {
    if isTest && |envs| > 10000 then envs[..10000] else envs
  }

  lemma RunNothing(m: Hart, envs: seq<Env>)
    ensures Run(m, envs[..0]) == (m, Running)
  {
  }

  lemma AllSpent(isTest: bool, envs: seq<Env>, n: nat)
    requires n <= |envs| && (isTest ==> n <= 10000) && (n == |envs| || (isTest && n == 10000))
    ensures Spent(isTest, envs) == envs[..n]
  {
  }

  lemma EndedEarly(m: Hart, isTest: bool, envs: seq<Env>, n: nat)
    requires n <= |envs| && (isTest ==> n <= 10000) && Run(m, envs[..n]).1 != Running
    ensures Run(m, Spent(isTest, envs)) == Run(m, envs[..n])
  {
    hide Run;
    assert envs[..n] == Spent(isTest, envs)[..n];
    RunStops(m, Spent(isTest, envs), n);
  }

  lemma ZeroOf(m: Hart)
    requires WellFormed(m)
    ensures GetX(m, 0) == 0
  {
    hide Frames.PagingAgrees;
  }
}
