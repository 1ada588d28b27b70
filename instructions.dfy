/** The instructions the compiler constructs for the external VM. Only their
    shape matters here: their runtime meaning lives in the VM, except for the
    named control lambdas of `run`/`loop`, whose effect on the execution
    frame is given by `ExecFrame.Execute`. */
module Instructions {
  import opened Wrappers

  /** An opaque command action produced by the external command grammar,
      identified by the command text it was parsed from. */
  datatype Action = Action(text: string)

  /** Integer.MAX_VALUE: the branch target that leaves the function. */
  const MaxInt: int := 0x7fff_ffff

  /** The lambdas passed to emitControlNamed and to the deferred generators
      of RunAST/LoopAST. `PushSourceAndMatch` holds the selector action,
      which is null when the selector failed to parse. */
  datatype FrameOp =
    | PushSourceAndMatch(selector: Option<Action>)
    | PopSourceOrBranch(exitTarget: nat)
    | FunctionExit
    | Cleanup

  datatype ControlInstr =
    | CallInstr(callee: nat)
    | BranchInstr(target: int)
    | PushInstrAddrInstr(addr: nat)
    | RetInstr
    | SubroutineRetInstr
    | SubroutineCallInstr(entry: nat)
    | Named(name: string, op: FrameOp)

  /** BranchInstr.exit(): the unconditional branch out of the function. */
  const ExitBranch: ControlInstr := BranchInstr(MaxInt)

  /** One instruction of the linked function body. */
  datatype Instr = PlainInstr(action: Action) | ControlOf(control: ControlInstr)
}
