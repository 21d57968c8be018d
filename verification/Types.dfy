/** Modes, traps, access sizes and the outcome of an operation. */
module Types {

  datatype Mode = User | Supervisor | Machine | Debug {
    /** The order the source derives on its enum: User < Supervisor < Machine < Debug. */
    function Rank(): nat {
      match this case User => 0 case Supervisor => 1 case Machine => 2 case Debug => 3
    }
  }

  datatype Exception =
    | InstructionAddressMisaligned
    | InstructionAccessFault
    | IllegalInstruction
    | Breakpoint
    | LoadAddressMisaligned
    | LoadAccessFault
    | StoreAMOAddressMisaligned
    | StoreAMOAccessFault
    | EnvironmentCallFromUMode
    | EnvironmentCallFromSMode
    | EnvironmentCallFromMMode
    | InstructionPageFault
    | LoadPageFault
    | StoreAMOPageFault

  datatype Interrupt =
    | MachineExternal
    | MachineSoftware
    | MachineTimer
    | SupervisorExternal
    | SupervisorSoftware
    | SupervisorTimer

  datatype AccessType = Instruction | Load | Store

  datatype Size = Byte | HalfWord | Word | DoubleWord {
    function Bytes(): nat {
      match this case Byte => 1 case HalfWord => 2 case Word => 4 case DoubleWord => 8
    }

    /** The low bits an access of this size keeps. */
    function Mask(): bv64 {
      match this
      case Byte => 0xff
      case HalfWord => 0xffff
      case Word => 0xffff_ffff
      case DoubleWord => 0xffff_ffff_ffff_ffff
    }
  }

  /** A value, a RISC-V exception, or a Rust panic, which ends the emulator process. */
  datatype Outcome<+T> = Ok(value: T) | Err(error: Exception) | Panic {
    predicate IsFailure() { !Ok? }

    function PropagateFailure<U>(): Outcome<U>
      requires IsFailure()
    {
      match this
      case Err(e) => Err(e)
      case Panic => Panic
    }

    function Extract(): T
      requires Ok?
    {
      value
    }
  }

  datatype Option<+T> = None | Some(value: T)

  /** What a floating-point instruction does; its arithmetic is not modelled. */
  datatype FpEffect = IntoF(fval: bv64) | IntoX(xval: bv64) | FpIllegal

  /** What the outside world contributes to one iteration of the emulator: whether the UART
      interrupts, what the ROM, PLIC, UART and the remaining virtio registers answer to a read
      (an address without an answer faults), which writes they accept, which reads and writes make
      them panic, and the results of host floating-point arithmetic. */
  datatype Env = Env(
    uart: bool,
    answers: map<(int, Size), bv64>,
    accepts: set<(int, Size)>,
    readPanics: set<(int, Size)>,
    writePanics: set<(int, Size)>,
    fp: FpEffect,
    widened: bv64,
    narrowed: bv64)
  {
    function Read(a: int, size: Size): Outcome<bv64> {
      if (a, size) in readPanics then Panic
      else if (a, size) in answers then Ok(answers[(a, size)]) else Err(LoadAccessFault)
    }

    function Write(a: int, size: Size): Outcome<()> {
      if (a, size) in writePanics then Panic
      else if (a, size) in accepts then Ok(()) else Err(StoreAMOAccessFault)
    }
  }
}
