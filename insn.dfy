// The JVM instruction table the agent consults when it decides whether a
// recorded jump was a real branch: every opcode it knows of, the fixed size of
// the instruction in bytes (absent for the two switches and WIDE, whose size
// depends on their operands), and whether the instruction can move control
// anywhere but the next instruction.
module Insn {
  import opened Wrappers

  /**
   * An instruction of the table. The table declares opcodes 0 through 201 in
   * order, each once, so an instruction is identified with its opcode and each
   * entry of the table is a named constant below.
   */
  type Insn = op: int | 0 <= op < 202

  const NOP: Insn := 0
  const ACONST_NULL: Insn := 1
  const ICONST_M1: Insn := 2
  const ICONST_0: Insn := 3
  const ICONST_1: Insn := 4
  const ICONST_2: Insn := 5
  const ICONST_3: Insn := 6
  const ICONST_4: Insn := 7
  const ICONST_5: Insn := 8
  const LCONST_0: Insn := 9
  const LCONST_1: Insn := 10
  const FCONST_0: Insn := 11
  const FCONST_1: Insn := 12
  const FCONST_2: Insn := 13
  const DCONST_0: Insn := 14
  const DCONST_1: Insn := 15
  const BIPUSH: Insn := 16
  const SIPUSH: Insn := 17
  const LDC: Insn := 18
  const LDC_W: Insn := 19
  const LDC2_W: Insn := 20
  const ILOAD: Insn := 21
  const LLOAD: Insn := 22
  const FLOAD: Insn := 23
  const DLOAD: Insn := 24
  const ALOAD: Insn := 25
  const ILOAD_0: Insn := 26
  const ILOAD_1: Insn := 27
  const ILOAD_2: Insn := 28
  const ILOAD_3: Insn := 29
  const LLOAD_0: Insn := 30
  const LLOAD_1: Insn := 31
  const LLOAD_2: Insn := 32
  const LLOAD_3: Insn := 33
  const FLOAD_0: Insn := 34
  const FLOAD_1: Insn := 35
  const FLOAD_2: Insn := 36
  const FLOAD_3: Insn := 37
  const DLOAD_0: Insn := 38
  const DLOAD_1: Insn := 39
  const DLOAD_2: Insn := 40
  const DLOAD_3: Insn := 41
  const ALOAD_0: Insn := 42
  const ALOAD_1: Insn := 43
  const ALOAD_2: Insn := 44
  const ALOAD_3: Insn := 45
  const IALOAD: Insn := 46
  const LALOAD: Insn := 47
  const FALOAD: Insn := 48
  const DALOAD: Insn := 49
  const AALOAD: Insn := 50
  const BALOAD: Insn := 51
  const CALOAD: Insn := 52
  const SALOAD: Insn := 53
  const ISTORE: Insn := 54
  const LSTORE: Insn := 55
  const FSTORE: Insn := 56
  const DSTORE: Insn := 57
  const ASTORE: Insn := 58
  const ISTORE_0: Insn := 59
  const ISTORE_1: Insn := 60
  const ISTORE_2: Insn := 61
  const ISTORE_3: Insn := 62
  const LSTORE_0: Insn := 63
  const LSTORE_1: Insn := 64
  const LSTORE_2: Insn := 65
  const LSTORE_3: Insn := 66
  const FSTORE_0: Insn := 67
  const FSTORE_1: Insn := 68
  const FSTORE_2: Insn := 69
  const FSTORE_3: Insn := 70
  const DSTORE_0: Insn := 71
  const DSTORE_1: Insn := 72
  const DSTORE_2: Insn := 73
  const DSTORE_3: Insn := 74
  const ASTORE_0: Insn := 75
  const ASTORE_1: Insn := 76
  const ASTORE_2: Insn := 77
  const ASTORE_3: Insn := 78
  const IASTORE: Insn := 79
  const LASTORE: Insn := 80
  const FASTORE: Insn := 81
  const DASTORE: Insn := 82
  const AASTORE: Insn := 83
  const BASTORE: Insn := 84
  const CASTORE: Insn := 85
  const SASTORE: Insn := 86
  const POP: Insn := 87
  const POP2: Insn := 88
  const DUP: Insn := 89
  const DUP_X1: Insn := 90
  const DUP_X2: Insn := 91
  const DUP2: Insn := 92
  const DUP2_X1: Insn := 93
  const DUP2_X2: Insn := 94
  const SWAP: Insn := 95
  const IADD: Insn := 96
  const LADD: Insn := 97
  const FADD: Insn := 98
  const DADD: Insn := 99
  const ISUB: Insn := 100
  const LSUB: Insn := 101
  const FSUB: Insn := 102
  const DSUB: Insn := 103
  const IMUL: Insn := 104
  const LMUL: Insn := 105
  const FMUL: Insn := 106
  const DMUL: Insn := 107
  const IDIV: Insn := 108
  const LDIV: Insn := 109
  const FDIV: Insn := 110
  const DDIV: Insn := 111
  const IREM: Insn := 112
  const LREM: Insn := 113
  const FREM: Insn := 114
  const DREM: Insn := 115
  const INEG: Insn := 116
  const LNEG: Insn := 117
  const FNEG: Insn := 118
  const DNEG: Insn := 119
  const ISHL: Insn := 120
  const LSHL: Insn := 121
  const ISHR: Insn := 122
  const LSHR: Insn := 123
  const IUSHR: Insn := 124
  const LUSHR: Insn := 125
  const IAND: Insn := 126
  const LAND: Insn := 127
  const IOR: Insn := 128
  const LOR: Insn := 129
  const IXOR: Insn := 130
  const LXOR: Insn := 131
  const IINC: Insn := 132
  const I2L: Insn := 133
  const I2F: Insn := 134
  const I2D: Insn := 135
  const L2I: Insn := 136
  const L2F: Insn := 137
  const L2D: Insn := 138
  const F2I: Insn := 139
  const F2L: Insn := 140
  const F2D: Insn := 141
  const D2I: Insn := 142
  const D2L: Insn := 143
  const D2F: Insn := 144
  const I2B: Insn := 145
  const I2C: Insn := 146
  const I2S: Insn := 147
  const LCMP: Insn := 148
  const FCMPL: Insn := 149
  const FCMPG: Insn := 150
  const DCMPL: Insn := 151
  const DCMPG: Insn := 152
  const IFEQ: Insn := 153
  const IFNE: Insn := 154
  const IFLT: Insn := 155
  const IFGE: Insn := 156
  const IFGT: Insn := 157
  const IFLE: Insn := 158
  const IF_ICMPEQ: Insn := 159
  const IF_ICMPNE: Insn := 160
  const IF_ICMPLT: Insn := 161
  const IF_ICMPGE: Insn := 162
  const IF_ICMPGT: Insn := 163
  const IF_ICMPLE: Insn := 164
  const IF_ACMPEQ: Insn := 165
  const IF_ACMPNE: Insn := 166
  const GOTO: Insn := 167
  const JSR: Insn := 168
  const RET: Insn := 169
  const TABLESWITCH: Insn := 170
  const LOOKUPSWITCH: Insn := 171
  const IRETURN: Insn := 172
  const LRETURN: Insn := 173
  const FRETURN: Insn := 174
  const DRETURN: Insn := 175
  const ARETURN: Insn := 176
  const RETURN: Insn := 177
  const GETSTATIC: Insn := 178
  const PUTSTATIC: Insn := 179
  const GETFIELD: Insn := 180
  const PUTFIELD: Insn := 181
  const INVOKEVIRTUAL: Insn := 182
  const INVOKESPECIAL: Insn := 183
  const INVOKESTATIC: Insn := 184
  const INVOKEINTERFACE: Insn := 185
  const INVOKEDYNAMIC: Insn := 186
  const NEW: Insn := 187
  const NEWARRAY: Insn := 188
  const ANEWARRAY: Insn := 189
  const ARRAYLENGTH: Insn := 190
  const ATHROW: Insn := 191
  const CHECKCAST: Insn := 192
  const INSTANCEOF: Insn := 193
  const MONITORENTER: Insn := 194
  const MONITOREXIT: Insn := 195
  const WIDE: Insn := 196
  const MULTIANEWARRAY: Insn := 197
  const IFNULL: Insn := 198
  const IFNONNULL: Insn := 199
  const GOTO_W: Insn := 200
  const JSR_W: Insn := 201

  function Opcode(i: Insn): int
  {
    i
  }

  /**
   * The encoded size of the instruction when it does not depend on its
   * operands: none for the two switches and WIDE; otherwise 1 unless the
   * table says 2, 3, 4 or 5.
   */
  function FixedSize(i: Insn): (r: Option<int>)
    ensures r.Some? ==> 1 <= r.value <= 5
  {
    if i == TABLESWITCH || i == LOOKUPSWITCH || i == WIDE then None
    else if || i == BIPUSH || i == LDC || ILOAD <= i <= ALOAD || ISTORE <= i <= ASTORE
            || i == RET || i == NEWARRAY
    then Some(2)
    else if || i == SIPUSH || LDC_W <= i <= LDC2_W || i == IINC || IFEQ <= i <= JSR
            || GETSTATIC <= i <= INVOKESTATIC || i == NEW || i == ANEWARRAY || i == CHECKCAST
            || i == INSTANCEOF || i == IFNULL || i == IFNONNULL
    then Some(3)
    else if i == MULTIANEWARRAY then Some(4)
    else if i == INVOKEINTERFACE || i == INVOKEDYNAMIC || i == GOTO_W || i == JSR_W then Some(5)
    else Some(1)
  }

  /**
   * The instructions flagged as branching: the jumps, RET and the switches
   * (IFEQ through LOOKUPSWITCH), the returns, the invocations, ATHROW, the
   * null tests and the wide jumps.
   */
  predicate Branches(i: Insn)
  {
    || IFEQ <= i <= RETURN
    || INVOKEVIRTUAL <= i <= INVOKEDYNAMIC
    || i == ATHROW
    || IFNULL <= i <= JSR_W
  }

  /**
   * The agent's lookup from an opcode to its instruction; there is no entry
   * for an opcode outside the table.
   */
  function ByOpcode(op: int): (r: Option<Insn>)
    ensures r.Some? <==> 0 <= op < 202
    ensures r.Some? ==> Opcode(r.value) == op
  {
    if 0 <= op < 202 then Some(op) else None
  }

  /** Conditional jumps, GOTO and JSR: three bytes long, and they branch. */
  lemma ShortJumpsBranchWithSizeThree(i: Insn)
    requires IFEQ <= i <= JSR || i == IFNULL || i == IFNONNULL
    ensures Branches(i) && FixedSize(i) == Some(3)
  {
  }

  /** The wide jumps are five bytes long, RET two and ATHROW one; all of them branch. */
  lemma OtherJumpsBranch()
    ensures Branches(GOTO_W) && FixedSize(GOTO_W) == Some(5)
    ensures Branches(JSR_W) && FixedSize(JSR_W) == Some(5)
    ensures Branches(RET) && FixedSize(RET) == Some(2)
    ensures Branches(ATHROW) && FixedSize(ATHROW) == Some(1)
  {
  }

  /**
   * The two switches are the only branching instructions without a fixed size;
   * WIDE has none either, but does not branch.
   */
  lemma VariableSizeInstructions(i: Insn)
    ensures FixedSize(i).None? && Branches(i) <==> i == TABLESWITCH || i == LOOKUPSWITCH
    ensures FixedSize(i).None? && !Branches(i) <==> i == WIDE
  {
  }

  /** Returns branch with size one; the invocations with size three or five. */
  lemma ExitsAndInvokesBranch(i: Insn)
    requires IRETURN <= i <= RETURN || INVOKEVIRTUAL <= i <= INVOKEDYNAMIC
    ensures Branches(i)
    ensures FixedSize(i) == Some(if i == INVOKEINTERFACE || i == INVOKEDYNAMIC then 5
                                 else if INVOKEVIRTUAL <= i then 3 else 1)
  {
  }
}
