/** One instruction: fetch, move the pc, execute. */
module Instruction {
  import opened Types
  import opened Words
  import opened HartState
  import opened Executor
  import opened Compressed

  type Fetched = (Hart, Outcome<bv64>)

  /** The outcome of an executor that reports the instruction word it ran. */
  function Report(r: Result, w: bv64): Fetched {
    match r.1
    case Ok(_) => (r.0, Ok(w))
    case Err(e) => (r.0, Err(e))
    case Panic => (r.0, Panic)
  }

  function Advance(m: Hart, len: bv64): Hart { m.(pc := Add(m.pc, len)) }

  function StepGeneral(m: Hart): Fetched {
    match Fetch(m, Word)
    case Ok(w) => Report(Execute(Advance(m, 4), w, 4), w)
    case Err(e) => (m, Err(e))
    case Panic => (m, Panic)
  }

  function StepCompressed(m: Hart): Fetched {
    match Fetch(m, HalfWord)
    case Ok(c) => Report(ExecCompressed(Advance(m, 2), c), c)
    case Err(e) => (m, Err(e))
    case Panic => (m, Panic)
  }

  /** Nothing runs while the hart is idle, and the all-zero half word is illegal. */
  function StepInstruction(m: Hart): Fetched {
    if m.idle then (m, Ok(0))
    else
      match Fetch(m, HalfWord)
      case Err(e) => (m, Err(e))
      case Panic => (m, Panic)
      case Ok(c) =>
        if Quadrant(c) == 3 then StepGeneral(m)
        else if c == 0 then (m, Err(IllegalInstruction))
        else StepCompressed(m)
  }
}
