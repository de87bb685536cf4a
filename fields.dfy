/**
 * The four bit-field unions of an instruction record (u_opcode, u_logfunc,
 * u_branch, u_output), written as shift/mask functions on a byte with the
 * fields allocated from the least significant bit up.
 */
module Fields {

  /** Bit positions of u_opcode. */
  const DP_BIT: nat := 0
  const DATA_BIT: nat := 1
  const NEXT_BIT: nat := 2
  const INCAD_BIT: nat := 3
  const GINT_BIT: nat := 4
  const SGL_BIT: nat := 5
  /** Bit position of u_branch's re-execute flag. */
  const REEXECUTE_BIT: nat := 7

  /** Bit `k` of `b`; bit 0 is the least significant. */
  predicate Bit(b: bv8, k: nat)
    requires k < 8
  {
    (b >> k) & 1 == 1
  }

  /** `b | (1 << k)`: raises bit `k` and keeps every other bit. */
  function SetBit(b: bv8, k: nat): (r: bv8)
    requires k < 8
    ensures Bit(r, k)
    ensures forall j :: 0 <= j < 8 && j != k ==> Bit(r, j) == Bit(b, j)
  {
    b | ((1 as bv8) << k)
  }

  lemma SetBitIdempotent(b: bv8, k: nat)
    requires k < 8
    ensures SetBit(SetBit(b, k), k) == SetBit(b, k)
  {
  }

  lemma SetBitCommutes(b: bv8, j: nat, k: nat)
    requires j < 8 && k < 8
    ensures SetBit(SetBit(b, j), k) == SetBit(SetBit(b, k), j)
  {
  }

  /** A byte is its eight bits. */
  lemma BitsDetermineByte(x: bv8, y: bv8)
    requires forall k :: 0 <= k < 8 ==> Bit(x, k) == Bit(y, k)
    ensures x == y
  {
    assert Bit(x, 0) == Bit(y, 0) && Bit(x, 1) == Bit(y, 1);
    assert Bit(x, 2) == Bit(y, 2) && Bit(x, 3) == Bit(y, 3);
    assert Bit(x, 4) == Bit(y, 4) && Bit(x, 5) == Bit(y, 5);
    assert Bit(x, 6) == Bit(y, 6) && Bit(x, 7) == Bit(y, 7);
  }

  // ---- u_branch: branch0 = bits 0-2, branch1 = bits 3-5, reexecute = bit 7

  function Branch0(b: bv8): (v: nat)
    ensures v < 8
  {
    (b & 7) as nat
  }

  function Branch1(b: bv8): (v: nat)
    ensures v < 8
  {
    ((b >> 3) & 7) as nat
  }

  /** `branch.bits.branch0 = v` */
  function WithBranch0(b: bv8, v: nat): (r: bv8)
    requires v < 8
    ensures Branch0(r) == v && Branch1(r) == Branch1(b)
    ensures Bit(r, 6) == Bit(b, 6) && Bit(r, 7) == Bit(b, 7)
  {
    (b & 0xF8) | (v as bv8)
  }

  /** `branch.bits.branch1 = v` */
  function WithBranch1(b: bv8, v: nat): (r: bv8)
    requires v < 8
    ensures Branch1(r) == v && Branch0(r) == Branch0(b)
    ensures Bit(r, 6) == Bit(b, 6) && Bit(r, 7) == Bit(b, 7)
  {
    (b & 0xC7) | ((v as bv8) << 3)
  }

  lemma BranchFieldsRoundTrip(b: bv8)
    ensures WithBranch0(b, Branch0(b)) == b
    ensures WithBranch1(b, Branch1(b)) == b
  {
  }

  /** The byte that carries two branch targets and the re-execute flag. */
  function BranchByte(branch0: nat, branch1: nat, reexecute: bool): (r: bv8)
    requires branch0 < 8 && branch1 < 8
    ensures Branch0(r) == branch0 && Branch1(r) == branch1
    ensures Bit(r, REEXECUTE_BIT) == reexecute && !Bit(r, 6)
  {
    (if reexecute then 0x80 else 0) | ((branch1 as bv8) << 3) | (branch0 as bv8)
  }

  lemma BranchByteOfFields(b: bv8)
    requires !Bit(b, 6)
    ensures BranchByte(Branch0(b), Branch1(b), Bit(b, REEXECUTE_BIT)) == b
  {
  }

  // ---- u_logfunc: termb = bits 0-2, terma = bits 3-5, lfunc = bits 6-7

  function TermB(b: bv8): (v: nat)
    ensures v < 8
  {
    (b & 7) as nat
  }

  function TermA(b: bv8): (v: nat)
    ensures v < 8
  {
    ((b >> 3) & 7) as nat
  }

  function LFunc(b: bv8): (v: nat)
    ensures v < 4
  {
    (b >> 6) as nat
  }

  /** `logfunc.bits.termb = v` */
  function WithTermB(b: bv8, v: nat): (r: bv8)
    requires v < 8
    ensures TermB(r) == v && TermA(r) == TermA(b) && LFunc(r) == LFunc(b)
  {
    (b & 0xF8) | (v as bv8)
  }

  /** `logfunc.bits.terma = v` */
  function WithTermA(b: bv8, v: nat): (r: bv8)
    requires v < 8
    ensures TermA(r) == v && TermB(r) == TermB(b) && LFunc(r) == LFunc(b)
  {
    (b & 0xC7) | ((v as bv8) << 3)
  }

  /** `logfunc.bits.lfunc = v` */
  function WithLFunc(b: bv8, v: nat): (r: bv8)
    requires v < 4
    ensures LFunc(r) == v && TermA(r) == TermA(b) && TermB(r) == TermB(b)
  {
    (b & 0x3F) | ((v as bv8) << 6)
  }

  /** The logic-function byte `lfunc << 6 | terma << 3 | termb`. */
  function LogicByte(lfunc: nat, terma: nat, termb: nat): (r: bv8)
    requires lfunc < 4 && terma < 8 && termb < 8
    ensures LFunc(r) == lfunc && TermA(r) == terma && TermB(r) == termb
  {
    ((lfunc as bv8) << 6) | ((terma as bv8) << 3) | (termb as bv8)
  }

  /** The three fields cover the whole byte. */
  lemma LogicByteOfFields(b: bv8)
    ensures LogicByte(LFunc(b), TermA(b), TermB(b)) == b
  {
  }

  /** Setting the three fields one after the other, as the encoder does, gives LogicByte. */
  lemma FieldwiseLogicByte(b: bv8, lfunc: nat, terma: nat, termb: nat)
    requires lfunc < 4 && terma < 8 && termb < 8
    ensures WithLFunc(WithTermB(WithTermA(b, terma), termb), lfunc) == LogicByte(lfunc, terma, termb)
  {
  }
}
