/** The instruction set of the virtual machine: opcodes and the table of their arguments,
    results and side effects (libevmasm/Instruction.h, libevmasm/Instruction.cpp), and the
    classification of instructions used by the optimiser (libevmasm/SemanticInformation.cpp). */
module Instructions {

  type Opcode = x: int | 0 <= x < 256

  const STOP: Opcode := 0x00
  const ADD: Opcode := 0x01
  const MUL: Opcode := 0x02
  const SUB: Opcode := 0x03
  const DIV: Opcode := 0x04
  const SDIV: Opcode := 0x05
  const MOD: Opcode := 0x06
  const SMOD: Opcode := 0x07
  const ADDMOD: Opcode := 0x08
  const MULMOD: Opcode := 0x09
  const EXP: Opcode := 0x0a
  const SIGNEXTEND: Opcode := 0x0b
  const LT: Opcode := 0x10
  const GT: Opcode := 0x11
  const SLT: Opcode := 0x12
  const SGT: Opcode := 0x13
  const EQ: Opcode := 0x14
  const ISZERO: Opcode := 0x15
  const AND: Opcode := 0x16
  const OR: Opcode := 0x17
  const XOR: Opcode := 0x18
  const NOT: Opcode := 0x19
  const BYTE: Opcode := 0x1a
  const SHL: Opcode := 0x1b
  const SHR: Opcode := 0x1c
  const SAR: Opcode := 0x1d
  const KECCAK256: Opcode := 0x20
  const FMUL: Opcode := 0x2a
  const SFDIV: Opcode := 0x2d
  const ADDRESS: Opcode := 0x30
  const BALANCE: Opcode := 0x31
  const ORIGIN: Opcode := 0x32
  const CALLER: Opcode := 0x33
  const CALLVALUE: Opcode := 0x34
  const CALLDATALOAD: Opcode := 0x35
  const CALLDATASIZE: Opcode := 0x36
  const CALLDATACOPY: Opcode := 0x37
  const CODESIZE: Opcode := 0x38
  const CODECOPY: Opcode := 0x39
  const GASPRICE: Opcode := 0x3a
  const EXTCODESIZE: Opcode := 0x3b
  const EXTCODECOPY: Opcode := 0x3c
  const RETURNDATASIZE: Opcode := 0x3d
  const RETURNDATACOPY: Opcode := 0x3e
  const EXTCODEHASH: Opcode := 0x3f
  const BLOCKHASH: Opcode := 0x40
  const COINBASE: Opcode := 0x41
  const GASLIMIT: Opcode := 0x45
  const POP: Opcode := 0x50
  const MLOAD: Opcode := 0x51
  const MSTORE: Opcode := 0x52
  const MSTORE8: Opcode := 0x53
  const SLOAD: Opcode := 0x54
  const SSTORE: Opcode := 0x55
  const JUMP: Opcode := 0x56
  const JUMPI: Opcode := 0x57
  const PC: Opcode := 0x58
  const MSIZE: Opcode := 0x59
  const GAS: Opcode := 0x5a
  const JUMPDEST: Opcode := 0x5b
  const PUSH1: Opcode := 0x60
  const PUSH20: Opcode := 0x73
  const PUSH32: Opcode := 0x7f
  const DUP1: Opcode := 0x80
  const DUP2: Opcode := 0x81
  const DUP4: Opcode := 0x83
  const DUP16: Opcode := 0x8f
  const SWAP1: Opcode := 0x90
  const SWAP2: Opcode := 0x91
  const SWAP16: Opcode := 0x9f
  const LOG0: Opcode := 0xa0
  const LOG4: Opcode := 0xa4
  const CREATE: Opcode := 0xf0
  const CALL: Opcode := 0xf1
  const CALLCODE: Opcode := 0xf2
  const RETURN: Opcode := 0xf3
  const DELEGATECALL: Opcode := 0xf4
  const ENI: Opcode := 0xf5
  const ISVALIDATOR: Opcode := 0xf6
  const FREEGAS: Opcode := 0xf8
  const RAND: Opcode := 0xf9
  const STATICCALL: Opcode := 0xfa
  const REVERT: Opcode := 0xfd
  const INVALID: Opcode := 0xfe
  const SELFDESTRUCT: Opcode := 0xff

  predicate IsPush(op: Opcode) { PUSH1 <= op <= PUSH32 }

  predicate IsDup(op: Opcode) { DUP1 <= op <= DUP16 }

  predicate IsSwap(op: Opcode) { SWAP1 <= op <= SWAP16 }

  predicate IsLog(op: Opcode) { LOG0 <= op <= LOG4 }

  /** True for the opcodes that have an entry in the instruction table. */
  predicate IsValidInstruction(op: Opcode) {
    || STOP <= op <= SIGNEXTEND
    || LT <= op <= SAR
    || op == KECCAK256
    || FMUL <= op <= SFDIV
    || ADDRESS <= op <= GASLIMIT
    || POP <= op <= JUMPDEST
    || PUSH1 <= op <= LOG4
    || CREATE <= op <= ISVALIDATOR
    || (op == FREEGAS || op == RAND || op == STATICCALL || op == REVERT || op == INVALID || op == SELFDESTRUCT)
  }

  /** Number of bytes that follow the opcode in the code. */
  function Additional(op: Opcode): nat {
    if IsPush(op) then op - PUSH1 + 1 else 0
  }

  /** Number of stack items consumed. */
  function ArgCount(op: Opcode): nat {
    if (op == ADDMOD || op == MULMOD) then 3
    else if (op == NOT || op == ISZERO) then 1
    else if ADD <= op <= SIGNEXTEND || LT <= op <= SAR || op == KECCAK256 then 2
    else if FMUL <= op <= SFDIV then 3
    else if (op == BALANCE || op == CALLDATALOAD || op == EXTCODESIZE || op == EXTCODEHASH || op == BLOCKHASH) then 1
    else if (op == CALLDATACOPY || op == CODECOPY || op == RETURNDATACOPY) then 3
    else if op == EXTCODECOPY then 4
    else if (op == POP || op == MLOAD || op == SLOAD || op == JUMP) then 1
    else if (op == MSTORE || op == MSTORE8 || op == SSTORE || op == JUMPI) then 2
    else if IsDup(op) then op - DUP1 + 1
    else if IsSwap(op) then op - SWAP1 + 2
    else if IsLog(op) then op - LOG0 + 2
    else if (op == CREATE || op == ENI) then 3
    else if (op == CALL || op == CALLCODE) then 7
    else if (op == DELEGATECALL || op == STATICCALL) then 6
    else if (op == RETURN || op == REVERT) then 2
    else if (op == ISVALIDATOR || op == SELFDESTRUCT) then 1
    else 0
  }

  /** Number of stack items produced. */
  function RetCount(op: Opcode): nat {
    if !IsValidInstruction(op) then 0
    else if IsDup(op) then op - DUP1 + 2
    else if IsSwap(op) then op - SWAP1 + 2
    else if IsLog(op) then 0
    else if (op == STOP || op == CALLDATACOPY || op == CODECOPY || op == EXTCODECOPY || op == RETURNDATACOPY || op == POP || op == MSTORE || op == MSTORE8 || op == SSTORE || op == JUMP || op == JUMPI || op == JUMPDEST || op == RETURN || op == FREEGAS || op == REVERT || op == INVALID || op == SELFDESTRUCT) then 0
    else 1
  }

  predicate HasSideEffects(op: Opcode) {
    || (op == STOP || op == KECCAK256 || op == ENI || op == RAND || op == CALLDATACOPY || op == CODECOPY || op == EXTCODECOPY || op == RETURNDATACOPY)
    || (op == MLOAD || op == MSTORE || op == MSTORE8 || op == SSTORE || op == JUMP || op == JUMPI || op == JUMPDEST)
    || IsLog(op)
    || (op == CREATE || op == CALL || op == CALLCODE || op == RETURN || op == DELEGATECALL || op == STATICCALL || op == REVERT || op == INVALID || op == SELFDESTRUCT)
  }

  predicate IsCommutative(op: Opcode) {
    (op == ADD || op == MUL || op == EQ || op == AND || op == OR || op == XOR)
  }

  predicate AltersControlFlow(op: Opcode) {
    (op == JUMP || op == JUMPI || op == RETURN || op == SELFDESTRUCT || op == STOP || op == INVALID || op == REVERT)
  }

  /** False for instructions whose result depends on more than their arguments. */
  predicate IsDeterministic(op: Opcode) {
    op != CALL && op != CALLCODE && op != DELEGATECALL && op != STATICCALL && op != CREATE && op != GAS && op != PC && op != MSIZE && op != BALANCE && op != EXTCODESIZE && op != EXTCODEHASH && op != RETURNDATACOPY && op != RETURNDATASIZE
  }
}
