/** Privilege modes, exceptions and interrupts, with their cause codes. */
module Trap {

  datatype Mode = User | Supervisor | Machine

  datatype Access = Fetch | Load | Store

  datatype Result<+T> = Ok(value: T) | Err(error: Exception)

  datatype Option<+T> = None | Some(value: T)

  datatype Exception =
    | InstructionAddressMisaligned(at: nat)
    | InstructionAccessFault(at: nat)
    | IllegalInstruction(at: nat)
    | Breakpoint(at: nat)
    | LoadAccessFault(at: nat)
    | StoreAccessFault(at: nat)
    | EnvironmentCallFromU
    | EnvironmentCallFromS
    | EnvironmentCallFromM
    | InstructionPageFault(at: nat)
    | LoadPageFault(at: nat)
    | StorePageFault(at: nat)
  {
    function Cause(): nat {
      match this
      case InstructionAddressMisaligned(_) => 0
      case InstructionAccessFault(_) => 1
      case IllegalInstruction(_) => 2
      case Breakpoint(_) => 3
      case LoadAccessFault(_) => 5
      case StoreAccessFault(_) => 7
      case EnvironmentCallFromU => 8
      case EnvironmentCallFromS => 9
      case EnvironmentCallFromM => 11
      case InstructionPageFault(_) => 12
      case LoadPageFault(_) => 13
      case StorePageFault(_) => 15
    }

    function Tval(): nat {
      if EnvironmentCallFromU? || EnvironmentCallFromS? || EnvironmentCallFromM? then 0 else at
    }
  }

  function PageFault(acc: Access, va: nat): Exception {
    match acc
    case Fetch => InstructionPageFault(va)
    case Load => LoadPageFault(va)
    case Store => StorePageFault(va)
  }

  function AccessFault(acc: Access, va: nat): Exception {
    match acc
    case Fetch => InstructionAccessFault(va)
    case Load => LoadAccessFault(va)
    case Store => StoreAccessFault(va)
  }
}
