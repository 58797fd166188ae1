/** Register and CSR numbers, shared by the models of the two assembly routines. */
module Registers {
  const RA: nat := 1
  const SP: nat := 2
  const GP: nat := 3
  const TP: nat := 4
  const T0: nat := 5
  const T1: nat := 6
  const T2: nat := 7
  const A4: nat := 14
  const A5: nat := 15
  const T3: nat := 28
  const T4: nat := 29
  const T5: nat := 30
  const T6: nat := 31

  // The CSRs in the order in which both routines save them.

  const MSTATUS: nat := 0
  const MIE: nat := 1
  const MTVEC: nat := 2
  const MEPC: nat := 3
  const MTVAL: nat := 4
  const CSR_COUNT: nat := 5
}
