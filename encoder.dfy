/**
 * The per-instruction encoder: a statement (mnemonic, operand tokens,
 * comment) and the final environment give the four packed bytes of one
 * state record, and possibly the error the listing reports for it.
 *
 * Each stage is a specification function over the tokens (a left fold when
 * the source loops); EncodeInstr is the imperative encoder, proved equal to
 * Encode, and the lemmas say what Encode computes.
 */
module Encoder {
  import opened Wrappers
  import opened Fields
  import opened Decimal
  import opened Tables
  import opened Directives

  /** A tokenised source line that is not a directive. */
  datatype Statement = Statement(mnemonic: string, operands: seq<string>, comment: string)

  /** The four unions of an s_instr. */
  datatype Packed = Packed(branch: bv8, opcode: bv8, logfunc: bv8, output: bv8)

  /** The record `clear()` leaves, and the one `resize` appends. */
  const CLEARED: Packed := Packed(0, 0, 0, 0)

  /** The errors the encoder attaches to an instruction (the listing prints them). */
  datatype InstrError =
    | UnknownOpcode(c: char)
    | MissingOperands
    | InvalidOperandA(name: string)
    | InvalidOperandB(name: string, legal: set<string>)
    | InvalidFunction(name: string)
    | InvalidTarget(token: string)
    | TooManyTargets(token: string)
    | TargetsNotSpecified
    | InvalidPin(token: string, trictl: nat, legal: set<string>)
    | InvalidCount(token: string)
    | InvalidCountValue(value: nat)

  /** An encoded instruction: its statement, its record and the last error written to it. */
  datatype Instr = Instr(stmt: Statement, rec: Packed, error: Option<InstrError>)

  // ------------------------------------------------------------------
  // Mnemonic scan

  /** The mnemonic characters of opcode bits 0..5: J=dp, D=data, N=next, +=incad, G=gint, S=sgl. */
  const OPCODE_CHARS: string := "JDN+GS"

  /** What the scan has set so far: the opcode byte, the branch byte (re-execute) and the error. */
  datatype Scan = Scan(opcode: bv8, branch: bv8, error: Option<InstrError>)

  /** One character of the mnemonic. */
  function ScanChar(st: Scan, c: char): (r: Scan)
    ensures r.error == st.error || r.error == Some(UnknownOpcode(c))
  {
    match c
    case 'J' => st.(opcode := SetBit(st.opcode, DP_BIT))
    case 'S' => st.(opcode := SetBit(st.opcode, SGL_BIT))
    case '+' => st.(opcode := SetBit(st.opcode, INCAD_BIT))
    case 'G' => st.(opcode := SetBit(st.opcode, GINT_BIT))
    case 'N' => st.(opcode := SetBit(st.opcode, NEXT_BIT))
    case 'D' => st.(opcode := SetBit(st.opcode, DATA_BIT))
    case '*' =>
      if Bit(st.opcode, DP_BIT) then st.(branch := SetBit(st.branch, REEXECUTE_BIT))
      else st.(error := Some(UnknownOpcode(c)))
    case _ => st.(error := Some(UnknownOpcode(c)))
  }

  /** The scan of a whole mnemonic, left to right, from a cleared record. */
  function ScanMnemonic(s: string): (r: Scan)
    ensures r.error.Some? ==> r.error.value.UnknownOpcode? && r.error.value.c in s
  {
    if s == [] then Scan(0, 0, None)
    else
      var init := s[..|s| - 1];
      assert forall c :: c in init ==> c in s;
      ScanChar(ScanMnemonic(init), s[|s| - 1])
  }

  /** Character `j` is reported: it is no opcode letter, and not a `*` that follows a `J`. */
  predicate BadAt(s: string, j: nat)
    requires j < |s|
  {
    s[j] !in OPCODE_CHARS && (s[j] != '*' || 'J' !in s[..j])
  }

  /** Some `*` comes after a `J`. */
  predicate Reexecutes(s: string) {
    exists j :: 0 <= j < |s| && s[j] == '*' && 'J' in s[..j]
  }

  /** The last reported character, if any. */
  function LastBad(s: string): (r: Option<nat>)
    ensures r.Some? ==> r.value < |s| && BadAt(s, r.value)
    ensures r.Some? ==> forall i :: r.value < i < |s| ==> !BadAt(s, i)
    ensures r.None? ==> forall i :: 0 <= i < |s| ==> !BadAt(s, i)
  {
    if s == [] then None
    else if BadAt(s, |s| - 1) then Some(|s| - 1)
    else
      var init := s[..|s| - 1];
      PrefixBadAt(s, |s| - 1);
      LastBad(init)
  }

  lemma PrefixBadAt(s: string, n: nat)
    requires n <= |s|
    ensures forall j :: 0 <= j < n ==> (BadAt(s[..n], j) <==> BadAt(s, j))
  {
    forall j | 0 <= j < n
      ensures BadAt(s[..n], j) <==> BadAt(s, j)
    {
      assert s[..n][..j] == s[..j];
    }
  }

  /** One character raises at most its own opcode bit. */
  lemma ScanCharOpcode(st: Scan, c: char)
    ensures forall k :: 0 <= k < 8 ==>
      (Bit(ScanChar(st, c).opcode, k) <==> Bit(st.opcode, k) || (k < 6 && c == OPCODE_CHARS[k]))
  {
  }

  /** Opcode bit k is set exactly when the k-th opcode letter occurs in the mnemonic; bits 6 and 7 stay clear. */
  lemma {:induction false} ScanOpcodeBits(s: string)
    ensures forall k :: 0 <= k < 6 ==> (Bit(ScanMnemonic(s).opcode, k) <==> OPCODE_CHARS[k] in s)
    ensures !Bit(ScanMnemonic(s).opcode, 6) && !Bit(ScanMnemonic(s).opcode, 7)
  {
    if s != [] {
      var init, c := s[..|s| - 1], s[|s| - 1];
      assert s == init + [c];
      ScanOpcodeBits(init);
      ScanCharOpcode(ScanMnemonic(init), c);
    }
  }

  /** The branch byte of the scan holds only the re-execute flag, set when some `*` follows a `J`. */
  lemma {:induction false} ScanBranch(s: string)
    ensures ScanMnemonic(s).branch == (if Reexecutes(s) then 0x80 else 0)
  {
    if s != [] {
      var init, c := s[..|s| - 1], s[|s| - 1];
      assert s == init + [c];
      ScanBranch(init);
      ScanOpcodeBits(init);
      assert 'J' in init <==> Bit(ScanMnemonic(init).opcode, DP_BIT);
      if Reexecutes(init) {
        var j :| 0 <= j < |init| && init[j] == '*' && 'J' in init[..j];
        assert init[..j] == s[..j];
        assert s[j] == '*' && 'J' in s[..j];
      }
    }
  }

  /** The scan's error names the last reported character, and there is none when no character is reported. */
  lemma {:induction false} ScanError(s: string)
    ensures ScanMnemonic(s).error == (match LastBad(s) case None => None case Some(j) => Some(UnknownOpcode(s[j])))
  {
    if s != [] {
      var init, c := s[..|s| - 1], s[|s| - 1];
      assert s == init + [c];
      ScanError(init);
      ScanOpcodeBits(init);
      PrefixBadAt(s, |s| - 1);
      assert 'J' in init <==> Bit(ScanMnemonic(init).opcode, DP_BIT);
    }
  }

  /**
   * Without `*`, the scan depends only on which characters the mnemonic
   * holds: order and repetition change neither byte nor whether an error is
   * reported.
   */
  lemma ScanOrderIndependent(s: string, t: string)
    requires forall c :: c in s <==> c in t
    requires '*' !in s
    ensures ScanMnemonic(s).opcode == ScanMnemonic(t).opcode
    ensures ScanMnemonic(s).branch == ScanMnemonic(t).branch == 0
    ensures ScanMnemonic(s).error.None? <==> ScanMnemonic(t).error.None?
  {
    assert ScanMnemonic(s).opcode == ScanMnemonic(t).opcode by {
      ScanOpcodeBits(s);
      ScanOpcodeBits(t);
      BitsDetermineByte(ScanMnemonic(s).opcode, ScanMnemonic(t).opcode);
    }
    assert '*' !in t;
    assert ScanMnemonic(s).branch == ScanMnemonic(t).branch == 0 by {
      ScanBranch(s);
      ScanBranch(t);
    }
    assert ScanMnemonic(s).error.None? <==> ScanMnemonic(t).error.None? by {
      ScanError(s);
      ScanError(t);
      ReportedIn(s, t);
      ReportedIn(t, s);
    }
  }

  /** Without `*`, a character reported in one mnemonic is reported in any mnemonic holding the same characters. */
  lemma ReportedIn(s: string, t: string)
    requires forall c :: c in s <==> c in t
    requires '*' !in s
    ensures LastBad(s).Some? ==> LastBad(t).Some?
  {
    var ls := LastBad(s);
    if ls.Some? {
      assert s[ls.value] in t;
      var j :| 0 <= j < |t| && t[j] == s[ls.value];
      assert BadAt(t, j);
    }
  }

  /** The exception: `*` re-executes only after a `J`; before it, it is reported. */
  lemma StarNeedsJFirst()
    ensures ScanMnemonic("J*").branch == 0x80 && ScanMnemonic("J*").error == None
    ensures ScanMnemonic("*J").branch == 0 && ScanMnemonic("*J").error == Some(UnknownOpcode('*'))
  {
    assert "J*"[..1] == "J" && "*J"[..1] == "*";
    assert "J"[..0] == [] && "*"[..0] == [];
  }

  // ------------------------------------------------------------------
  // Operand walks: the loops over the target/pin tokens of a decision point
  // and over the count/pin tokens of a non-decision point

  /** The loop state: branch and output bytes, targets seen, error, and whether the loop broke. */
  datatype Walk = Walk(branch: bv8, output: bv8, statex: nat, error: Option<InstrError>, stop: bool)

  predicate IsTarget(token: string) {
    |token| > 0 && token[0] == '$'
  }

  predicate IsCount(token: string) {
    |token| > 0 && IsDigit(token[0])
  }

  /** `$n`: the state number, if the text after `$` is a number that is 7, or at most 7 and at most `total`. */
  function TargetOf(token: string, total: nat): (r: Option<nat>)
    requires IsTarget(token)
    ensures r.Some? <==>
      AllDigits(token[1..]) && Value(token[1..]) <= 7 && (Value(token[1..]) == 7 || Value(token[1..]) <= total)
    ensures r.Some? ==> r.value == Value(token[1..]) && r.value < 8
  {
    var (state, rest) := ParseUnsigned(token[1..]);
    ParseUnsignedWhole(token[1..]);
    if rest != [] || state > 7 || (state != 7 && state > total) then None else Some(state)
  }

  /** A count token: the byte it stores (256 is stored as 0), or its error. */
  function CountOf(token: string): (r: Result<bv8, InstrError>)
    requires IsCount(token)
    ensures r.Success? <==> AllDigits(token) && Value(token) <= 256
    ensures r.Success? ==> r.value as nat == Value(token) % 256
    ensures r.Failure? ==>
      r.error == if AllDigits(token) then InvalidCountValue(Value(token)) else InvalidCount(token)
  {
    var (count, rest) := ParseUnsigned(token);
    ParseUnsignedWhole(token);
    if rest != [] then Failure(InvalidCount(token))
    else if count > 256 then Failure(InvalidCountValue(count))
    else Success(if count == 256 then 0 else count as bv8)
  }

  /** An output pin token: OR in its bit, or report it with the legal names and stop. */
  function PinStep(env: Env, w: Walk, token: string): Walk
    requires env.Valid()
  {
    var oemap := OeTab(env.trictl);
    match Lookup(oemap, token)
    case None => w.(error := Some(InvalidPin(token, env.trictl, oemap.Keys)), stop := true)
    case Some(shift) => w.(output := SetBit(w.output, shift))
  }

  /** One operand after A, func, B of a decision point. */
  function TargetStep(env: Env, total: nat, w: Walk, token: string): (r: Walk)
    requires env.Valid()
    ensures Bit(r.branch, 6) == Bit(w.branch, 6) && Bit(r.branch, REEXECUTE_BIT) == Bit(w.branch, REEXECUTE_BIT)
  {
    if w.stop then w
    else if IsTarget(token) then
      match TargetOf(token, total)
      case None => w.(error := Some(InvalidTarget(token)), stop := true)
      case Some(state) =>
        var w1 :=
          if w.statex == 0 then w.(branch := WithBranch0(w.branch, state))
          else if w.statex == 1 then w.(branch := WithBranch1(w.branch, state))
          else w.(error := Some(TooManyTargets(token)));
        w1.(statex := w.statex + 1, stop := w1.error.Some?)
    else PinStep(env, w, token)
  }

  function TargetWalk(env: Env, total: nat, w: Walk, tokens: seq<string>): (r: Walk)
    requires env.Valid()
    ensures w.stop ==> r == w
    ensures Bit(r.branch, 6) == Bit(w.branch, 6) && Bit(r.branch, REEXECUTE_BIT) == Bit(w.branch, REEXECUTE_BIT)
  {
    if tokens == [] then w
    else TargetStep(env, total, TargetWalk(env, total, w, tokens[..|tokens| - 1]), tokens[|tokens| - 1])
  }

  /** One operand of a non-decision point. */
  function CountStep(env: Env, w: Walk, token: string): Walk
    requires env.Valid()
  {
    if w.stop then w
    else if IsCount(token) then
      match CountOf(token)
      case Failure(e) => w.(error := Some(e))
      case Success(count) => w.(branch := count)
    else PinStep(env, w, token)
  }

  function CountWalk(env: Env, w: Walk, tokens: seq<string>): (r: Walk)
    requires env.Valid()
    ensures w.stop ==> r == w
    ensures w.error.Some? ==> r.error.Some?
  {
    if tokens == [] then w
    else CountStep(env, CountWalk(env, w, tokens[..|tokens| - 1]), tokens[|tokens| - 1])
  }

  // ------------------------------------------------------------------
  // The whole instruction

  /** The decision-point operands: A, func, B, then targets and pins. */
  function EncodeDp(env: Env, total: nat, sc: Scan, ops: seq<string>): (r: (Packed, Option<InstrError>))
    requires env.Valid()
    ensures r.0.opcode == sc.opcode
    ensures sc.error.Some? ==> r.1.Some?
    ensures r.1.None? ==>
      |ops| >= 3 && ops[0] in OperTab(env.cfg5, env.flagSel, env.cfg7)
      && ops[2] in OperTab(env.cfg5, env.flagSel, env.cfg7) && ops[1] in FUNC_TAB
  {
    if |ops| < 3 then (Packed(sc.branch, sc.opcode, 0, 0), Some(MissingOperands))
    else
      var opermap := OperTab(env.cfg5, env.flagSel, env.cfg7);
      match Lookup(opermap, ops[0])
      case None => (Packed(sc.branch, sc.opcode, 0, 0), Some(InvalidOperandA(ops[0])))
      case Some(a) =>
        var la := WithTermA(0, a);
        match Lookup(opermap, ops[2])
        case None => (Packed(sc.branch, sc.opcode, la, 0), Some(InvalidOperandB(ops[2], opermap.Keys)))
        case Some(b) =>
          var lab := WithTermB(la, b);
          match Lookup(FUNC_TAB, ops[1])
          case None => (Packed(sc.branch, sc.opcode, lab, 0), Some(InvalidFunction(ops[1])))
          case Some(f) =>
            var start := Walk(WithBranch1(WithBranch0(sc.branch, 7), 7), 0, 0, sc.error, false);
            var w := TargetWalk(env, total, start, ops[3..]);
            TargetWalkErrorSticky(env, total, start, ops[3..]);
            var error := if w.error.None? && w.statex != 2 then Some(TargetsNotSpecified) else w.error;
            (Packed(w.branch, sc.opcode, WithLFunc(lab, f), w.output), error)
  }

  /** Encodes one instruction of a program of `total` instructions under the final environment. */
  function Encode(env: Env, total: nat, stmt: Statement): (r: Instr)
    requires env.Valid()
    ensures r.stmt == stmt
    ensures 'J' !in stmt.mnemonic ==> r.rec.logfunc == 0
    ensures r.error.None? ==> LastBad(stmt.mnemonic).None?
  {
    ScanOpcodeBits(stmt.mnemonic);
    ScanError(stmt.mnemonic);
    var sc := ScanMnemonic(stmt.mnemonic);
    if Bit(sc.opcode, DP_BIT) then
      var (rec, error) := EncodeDp(env, total, sc, stmt.operands);
      Instr(stmt, rec, error)
    else
      var w := CountWalk(env, Walk(1, 0, 0, sc.error, false), stmt.operands);
      Instr(stmt, Packed(w.branch, sc.opcode, 0, w.output), w.error)
  }

  /** Once a walk has broken out, later tokens change nothing. */
  lemma {:induction false} TargetWalkStopped(env: Env, total: nat, w: Walk, p: seq<string>, q: seq<string>)
    requires env.Valid() && TargetWalk(env, total, w, p).stop
    ensures TargetWalk(env, total, w, p + q) == TargetWalk(env, total, w, p)
  {
    if q != [] {
      var init := q[..|q| - 1];
      assert (p + q)[..|p + q| - 1] == p + init;
      TargetWalkStopped(env, total, w, p, init);
    } else {
      assert p + q == p;
    }
  }

  lemma {:induction false} CountWalkStopped(env: Env, w: Walk, p: seq<string>, q: seq<string>)
    requires env.Valid() && CountWalk(env, w, p).stop
    ensures CountWalk(env, w, p + q) == CountWalk(env, w, p)
  {
    if q != [] {
      var init := q[..|q| - 1];
      assert (p + q)[..|p + q| - 1] == p + init;
      CountWalkStopped(env, w, p, init);
    } else {
      assert p + q == p;
    }
  }

  /** The mnemonic loop: each character sets its bit of the opcode (or re-execute) byte in place. */
  method ScanOpcode(s: string) returns (sc: Scan)
    ensures sc == ScanMnemonic(s)
  {
    var opcode: bv8, branch: bv8 := 0, 0;
    var error: Option<InstrError> := None;
    for i := 0 to |s|
      invariant Scan(opcode, branch, error) == ScanMnemonic(s[..i])
    {
      var c := s[i];
      assert s[..i + 1][..i] == s[..i];
      match c {
        case 'J' => opcode := SetBit(opcode, DP_BIT);
        case 'S' => opcode := SetBit(opcode, SGL_BIT);
        case '+' => opcode := SetBit(opcode, INCAD_BIT);
        case 'G' => opcode := SetBit(opcode, GINT_BIT);
        case 'N' => opcode := SetBit(opcode, NEXT_BIT);
        case 'D' => opcode := SetBit(opcode, DATA_BIT);
        case '*' =>
          if Bit(opcode, DP_BIT) {
            branch := SetBit(branch, REEXECUTE_BIT);
          } else {
            error := Some(UnknownOpcode(c));
          }
        case _ => error := Some(UnknownOpcode(c));
      }
    }
    assert s[..|s|] == s;
    sc := Scan(opcode, branch, error);
  }

  /** The walk of the first `n + 1` tokens is one step after the walk of the first `n`. */
  lemma TargetWalkSnoc(env: Env, total: nat, start: Walk, ops: seq<string>, n: nat)
    requires env.Valid() && n < |ops|
    ensures TargetWalk(env, total, start, ops[..n + 1]) == TargetStep(env, total, TargetWalk(env, total, start, ops[..n]), ops[n])
  {
    assert ops[..n + 1][..n] == ops[..n];
  }

  /** A walk that has broken out after the first `n` tokens is the walk of the whole sequence. */
  lemma TargetWalkStopsAt(env: Env, total: nat, start: Walk, ops: seq<string>, n: nat)
    requires env.Valid() && n <= |ops| && TargetWalk(env, total, start, ops[..n]).stop
    ensures TargetWalk(env, total, start, ops) == TargetWalk(env, total, start, ops[..n])
  {
    TargetWalkStopped(env, total, start, ops[..n], ops[n..]);
    assert ops[..n] + ops[n..] == ops;
  }

  /** The loop over the decision point's operands after A, func, B: targets fill branch0 then branch1, pins OR into the output byte. */
  method WalkTargets(env: Env, total: nat, start: Walk, ops: seq<string>) returns (w: Walk)
    requires env.Valid() && !start.stop
    ensures w == TargetWalk(env, total, start, ops)
  {
    w := start;
    var ox := 0;
    while ox < |ops|
      invariant 0 <= ox <= |ops| && !w.stop
      invariant w == TargetWalk(env, total, start, ops[..ox])
    {
      TargetWalkSnoc(env, total, start, ops, ox);
      w := TargetOperand(env, total, w, ops[ox]);
      if w.stop {
        TargetWalkStopsAt(env, total, start, ops, ox + 1);
        return;
      }
      ox := ox + 1;
    }
    assert ops[..|ops|] == ops;
  }

  /** One pass of that loop's body: a `$n` fills the next branch field, a pin name ORs its bit; a bad one breaks. */
  method TargetOperand(env: Env, total: nat, w0: Walk, operand: string) returns (w: Walk)
    requires env.Valid() && !w0.stop
    ensures w == TargetStep(env, total, w0, operand)
  {
    w := w0;
    if |operand| > 0 && operand[0] == '$' {
      var target := TargetOf(operand, total);
      if target.None? {
        return w.(error := Some(InvalidTarget(operand)), stop := true);
      }
      var state := target.value;
      if w.statex == 0 {
        w := w.(branch := WithBranch0(w.branch, state));
      } else if w.statex == 1 {
        w := w.(branch := WithBranch1(w.branch, state));
      } else {
        w := w.(error := Some(TooManyTargets(operand)));
      }
      w := w.(statex := w.statex + 1, stop := w.error.Some?);
    } else {
      var oemap := OeTab(env.trictl);
      if operand !in oemap {
        return w.(error := Some(InvalidPin(operand, env.trictl, oemap.Keys)), stop := true);
      }
      w := w.(output := SetBit(w.output, oemap[operand]));
    }
  }

  /** The loop over a non-decision point's operands: counts overwrite the branch byte, pins OR into the output byte. */
  method WalkCounts(env: Env, start: Walk, ops: seq<string>) returns (w: Walk)
    requires env.Valid() && !start.stop
    ensures w == CountWalk(env, start, ops)
  {
    var branch, output, error := start.branch, start.output, start.error;
    var ox := 0;
    while ox < |ops|
      invariant 0 <= ox <= |ops|
      invariant Walk(branch, output, start.statex, error, false) == CountWalk(env, start, ops[..ox])
    {
      var operand := ops[ox];
      ghost var before := Walk(branch, output, start.statex, error, false);
      assert ops[..ox + 1][..ox] == ops[..ox];
      assert CountWalk(env, start, ops[..ox + 1]) == CountStep(env, before, operand);
      if |operand| > 0 && '0' <= operand[0] <= '9' {
        var (count, trailing) := ParseUnsigned(operand);
        if trailing != [] {
          error := Some(InvalidCount(operand));
        } else if count > 256 {
          error := Some(InvalidCountValue(count));
        } else {
          if count == 256 {
            count := 0;
          }
          branch := count as bv8;
        }
      } else {
        var oemap := OeTab(env.trictl);
        if operand !in oemap {
          error := Some(InvalidPin(operand, env.trictl, oemap.Keys));
          assert ops == ops[..ox + 1] + ops[ox + 1..];
          CountWalkStopped(env, start, ops[..ox + 1], ops[ox + 1..]);
          return Walk(branch, output, start.statex, error, true);
        }
        output := SetBit(output, oemap[operand]);
      }
      ox := ox + 1;
    }
    assert ops[..|ops|] == ops;
    w := Walk(branch, output, start.statex, error, false);
  }

  /**
   * A decision point's operands, after the scan: A and B from the operand
   * table of the environment, func from FUNC_TAB, then the targets and pins.
   * The packed fields set before an error stay set.
   */
  method EncodeDpOperands(env: Env, total: nat, sc: Scan, ops: seq<string>) returns (rec: Packed, error: Option<InstrError>)
    requires env.Valid()
    ensures (rec, error) == EncodeDp(env, total, sc, ops)
  {
    var branch, logfunc, output: bv8 := sc.branch, 0, 0;
    error := sc.error;
    if |ops| < 3 {
      return Packed(branch, sc.opcode, logfunc, output), Some(MissingOperands);
    }
    var opermap := OperTab(env.cfg5, env.flagSel, env.cfg7);
    if ops[0] !in opermap {
      return Packed(branch, sc.opcode, logfunc, output), Some(InvalidOperandA(ops[0]));
    }
    logfunc := WithTermA(logfunc, opermap[ops[0]]);
    if ops[2] !in opermap {
      return Packed(branch, sc.opcode, logfunc, output), Some(InvalidOperandB(ops[2], opermap.Keys));
    }
    logfunc := WithTermB(logfunc, opermap[ops[2]]);
    if ops[1] !in FUNC_TAB {
      return Packed(branch, sc.opcode, logfunc, output), Some(InvalidFunction(ops[1]));
    }
    logfunc := WithLFunc(logfunc, FUNC_TAB[ops[1]]);
    branch := WithBranch1(WithBranch0(branch, 7), 7);
    var w := WalkTargets(env, total, Walk(branch, output, 0, error, false), ops[3..]);
    branch, output, error := w.branch, w.output, w.error;
    if error.None? && w.statex != 2 {
      error := Some(TargetsNotSpecified);
    }
    rec := Packed(branch, sc.opcode, logfunc, output);
  }

  /**
   * The body of the assembler's encoding loop for one instruction: the
   * fields of a cleared record are set in place while the mnemonic and then
   * the operands are scanned, and the last error written is kept.
   */
  method EncodeInstr(env: Env, total: nat, stmt: Statement) returns (ins: Instr)
    requires env.Valid()
    ensures ins == Encode(env, total, stmt)
  {
    var sc := ScanOpcode(stmt.mnemonic);
    if Bit(sc.opcode, DP_BIT) {
      var rec, error := EncodeDpOperands(env, total, sc, stmt.operands);
      ins := Instr(stmt, rec, error);
    } else {
      var w := WalkCounts(env, Walk(1, 0, 0, sc.error, false), stmt.operands);
      ins := Instr(stmt, Packed(w.branch, sc.opcode, 0, w.output), w.error);
    }
  }

  // ------------------------------------------------------------------
  // What the walks compute

  /** The tokens of `ts` that satisfy `p`, in order. */
  function Filter(ts: seq<string>, p: string -> bool): (r: seq<string>)
    ensures forall i :: 0 <= i < |r| ==> p(r[i])
  {
    if ts == [] then []
    else
      var init := Filter(ts[..|ts| - 1], p);
      if p(ts[|ts| - 1]) then init + [ts[|ts| - 1]] else init
  }

  /** The index of the last token of `ts` that satisfies `p`. */
  function LastIndexOf(ts: seq<string>, p: string -> bool): (r: Option<nat>)
    ensures r.Some? ==> r.value < |ts| && p(ts[r.value])
    ensures r.Some? ==> forall i :: r.value < i < |ts| ==> !p(ts[i])
    ensures r.None? ==> forall i :: 0 <= i < |ts| ==> !p(ts[i])
  {
    if ts == [] then None
    else if p(ts[|ts| - 1]) then Some(|ts| - 1)
    else LastIndexOf(ts[..|ts| - 1], p)
  }

  /** The output byte with the bit of every pin name among `tokens` raised; other tokens add nothing. */
  function PinMask(trictl: nat, tokens: seq<string>): (r: bv8)
    requires trictl <= 1
  {
    if tokens == [] then 0
    else
      var m := PinMask(trictl, tokens[..|tokens| - 1]);
      match Lookup(OeTab(trictl), tokens[|tokens| - 1])
      case None => m
      case Some(k) => SetBit(m, k)
  }

  /** Bit k of the output byte is raised exactly when some token names the pin on bit k. */
  lemma {:induction false} PinMaskBits(trictl: nat, tokens: seq<string>)
    requires trictl <= 1
    ensures forall k :: 0 <= k < 8 ==>
      (Bit(PinMask(trictl, tokens), k) <==>
       exists i :: 0 <= i < |tokens| && tokens[i] in OeTab(trictl) && OeTab(trictl)[tokens[i]] == k)
  {
    if tokens != [] {
      var init, last := tokens[..|tokens| - 1], tokens[|tokens| - 1];
      PinMaskBits(trictl, init);
      assert forall i :: 0 <= i < |init| ==> init[i] == tokens[i];
    }
  }

  /** The output byte depends only on which pin names occur: order and repetition do not matter. */
  lemma PinMaskOfSameNames(trictl: nat, xs: seq<string>, ys: seq<string>)
    requires trictl <= 1
    requires forall t :: t in xs <==> t in ys
    ensures PinMask(trictl, xs) == PinMask(trictl, ys)
  {
    var m := OeTab(trictl);
    PinMaskBits(trictl, xs);
    PinMaskBits(trictl, ys);
    forall k | 0 <= k < 8
      ensures Bit(PinMask(trictl, xs), k) == Bit(PinMask(trictl, ys), k)
    {
      if exists i :: 0 <= i < |xs| && xs[i] in m && m[xs[i]] == k {
        var i :| 0 <= i < |xs| && xs[i] in m && m[xs[i]] == k;
        assert xs[i] in ys;
        var j :| 0 <= j < |ys| && ys[j] == xs[i];
      }
      if exists j :: 0 <= j < |ys| && ys[j] in m && m[ys[j]] == k {
        var j :| 0 <= j < |ys| && ys[j] in m && m[ys[j]] == k;
        assert ys[j] in xs;
        var i :| 0 <= i < |xs| && xs[i] == ys[j];
      }
    }
    BitsDetermineByte(PinMask(trictl, xs), PinMask(trictl, ys));
  }

  /** A decision point's operand after A, func, B is legal: a valid `$n`, or a pin name of the TRICTL in effect. */
  predicate DpTokenOk(env: Env, total: nat, t: string)
    requires env.Valid()
  {
    if IsTarget(t) then TargetOf(t, total).Some? else t in OeTab(env.trictl)
  }

  predicate ValidCount(t: string) {
    IsCount(t) && CountOf(t).Success?
  }

  predicate BadCount(t: string) {
    IsCount(t) && CountOf(t).Failure?
  }

  /** A walk that has recorded an error keeps one. */
  lemma {:induction false} TargetWalkErrorSticky(env: Env, total: nat, w: Walk, ts: seq<string>)
    requires env.Valid()
    ensures w.error.Some? ==> TargetWalk(env, total, w, ts).error.Some?
  {
    if ts != [] {
      TargetWalkErrorSticky(env, total, w, ts[..|ts| - 1]);
    }
  }

  /** One error-free step of the target/pin loop. */
  lemma TargetStepClean(env: Env, total: nat, w: Walk, t: string)
    requires env.Valid() && w.error.None? && !w.stop
    ensures var r := TargetStep(env, total, w, t);
      && (r.error.None? <==> DpTokenOk(env, total, t) && (IsTarget(t) ==> w.statex < 2))
      && (r.error.Some? ==> r.stop)
      && (r.error.None? ==>
        && !r.stop && r.statex == w.statex + (if IsTarget(t) then 1 else 0)
        && r.output == (if IsTarget(t) then w.output else SetBit(w.output, OeTab(env.trictl)[t]))
        && r.branch == (if !IsTarget(t) then w.branch
                        else if w.statex == 0 then WithBranch0(w.branch, TargetOf(t, total).value)
                        else WithBranch1(w.branch, TargetOf(t, total).value)))
  {
    if IsTarget(t) {
      var r := TargetStep(env, total, w, t);
      if TargetOf(t, total).Some? {
        assert r.error.None? <==> w.statex < 2;
      }
    } else {
      var oemap := OeTab(env.trictl);
      assert TargetStep(env, total, w, t) == PinStep(env, w, t);
    }
  }

  /**
   * The target/pin loop from an error-free start ends without error exactly
   * when every token is legal and at most two are targets; an error stops
   * it, and without one every target has been counted.
   */
  lemma {:induction false} TargetWalkClean(env: Env, total: nat, b0: bv8, ts: seq<string>)
    requires env.Valid()
    ensures var r := TargetWalk(env, total, Walk(b0, 0, 0, None, false), ts);
      && (r.error.None? <==> (forall i :: 0 <= i < |ts| ==> DpTokenOk(env, total, ts[i])) && |Filter(ts, IsTarget)| <= 2)
      && (r.error.Some? ==> r.stop)
      && (r.error.None? ==> !r.stop && r.statex == |Filter(ts, IsTarget)|)
  {
    if ts != [] {
      var init, t := ts[..|ts| - 1], ts[|ts| - 1];
      assert ts == init + [t];
      TargetWalkClean(env, total, b0, init);
      var ri := TargetWalk(env, total, Walk(b0, 0, 0, None, false), init);
      assert Filter(ts, IsTarget) == if IsTarget(t) then Filter(init, IsTarget) + [t] else Filter(init, IsTarget);
      assert forall i :: 0 <= i < |init| ==> init[i] == ts[i];
      if ri.error.None? {
        TargetStepClean(env, total, ri, t);
      }
    }
  }

  /**
   * An error-free target/pin loop sets branch0 and branch1 to the first and
   * second targets (keeping the start's where there are fewer), raises the
   * pins' bits in the output byte, and leaves bits 6 and 7 of the branch byte.
   */
  lemma {:induction false} TargetWalkFields(env: Env, total: nat, b0: bv8, ts: seq<string>)
    requires env.Valid()
    requires TargetWalk(env, total, Walk(b0, 0, 0, None, false), ts).error.None?
    ensures var r := TargetWalk(env, total, Walk(b0, 0, 0, None, false), ts);
      var targets := Filter(ts, IsTarget);
      && r.output == PinMask(env.trictl, ts)
      && (if |targets| >= 1 then Some(Branch0(r.branch)) == TargetOf(targets[0], total)
          else Branch0(r.branch) == Branch0(b0))
      && (if |targets| >= 2 then Some(Branch1(r.branch)) == TargetOf(targets[1], total)
          else Branch1(r.branch) == Branch1(b0))
      && Bit(r.branch, 6) == Bit(b0, 6) && Bit(r.branch, 7) == Bit(b0, 7)
  {
    if ts != [] {
      var init, t := ts[..|ts| - 1], ts[|ts| - 1];
      assert ts == init + [t];
      var ri := TargetWalk(env, total, Walk(b0, 0, 0, None, false), init);
      var ti := Filter(init, IsTarget);
      assert Filter(ts, IsTarget) == if IsTarget(t) then ti + [t] else ti;
      TargetWalkClean(env, total, b0, init);
      TargetWalkFields(env, total, b0, init);
      TargetStepClean(env, total, ri, t);
      if IsTarget(t) {
        TargetIsNoPin(env.trictl, t);
        assert PinMask(env.trictl, ts) == PinMask(env.trictl, init);
      } else {
        assert PinMask(env.trictl, ts) == SetBit(PinMask(env.trictl, init), OeTab(env.trictl)[t]);
      }
    }
  }

  /** Pin names start with C or O, so no `$n` or count token is one. */
  lemma TargetIsNoPin(trictl: nat, t: string)
    requires trictl <= 1 && |t| > 0 && (t[0] == '$' || IsDigit(t[0]))
    ensures t !in OeTab(trictl)
  {
    OutputPinNames(trictl, t);
  }

  /** One step of the count/pin loop on a count or a pin name of the TRICTL in effect. */
  lemma CountStepClean(env: Env, w: Walk, t: string)
    requires env.Valid() && !w.stop
    requires !IsCount(t) ==> t in OeTab(env.trictl)
    ensures var r := CountStep(env, w, t);
      && !r.stop && r.statex == w.statex
      && r.output == (if IsCount(t) then w.output else SetBit(w.output, OeTab(env.trictl)[t]))
      && r.branch == (if ValidCount(t) then CountOf(t).value else w.branch)
      && r.error == (if BadCount(t) then Some(CountOf(t).error) else w.error)
  {
    if !IsCount(t) {
      assert CountStep(env, w, t) == PinStep(env, w, t);
    }
  }

  /**
   * The count/pin loop over counts and legal pin names runs to the end: the
   * last valid count is the branch byte (the start's when there is none),
   * the last bad count gives the error (else the start's stands), and the
   * pins' bits are raised.
   */
  lemma {:induction false} CountWalkMeaning(env: Env, b0: bv8, e0: Option<InstrError>, ts: seq<string>)
    requires env.Valid()
    requires forall i :: 0 <= i < |ts| ==> IsCount(ts[i]) || ts[i] in OeTab(env.trictl)
    ensures var r := CountWalk(env, Walk(b0, 0, 0, e0, false), ts);
      && !r.stop && r.statex == 0
      && r.output == PinMask(env.trictl, ts)
      && r.branch == (match LastIndexOf(ts, ValidCount) case None => b0 case Some(i) => CountOf(ts[i]).value)
      && r.error == (match LastIndexOf(ts, BadCount) case None => e0 case Some(i) => Some(CountOf(ts[i]).error))
  {
    if ts != [] {
      var init, t := ts[..|ts| - 1], ts[|ts| - 1];
      assert forall i :: 0 <= i < |init| ==> init[i] == ts[i];
      CountWalkMeaning(env, b0, e0, init);
      var ri := CountWalk(env, Walk(b0, 0, 0, e0, false), init);
      CountStepClean(env, ri, t);
      var r := CountStep(env, ri, t);
      assert r == CountWalk(env, Walk(b0, 0, 0, e0, false), ts);
      if IsCount(t) {
        TargetIsNoPin(env.trictl, t);
      }
      assert PinMask(env.trictl, ts) ==
        (if IsCount(t) then PinMask(env.trictl, init) else SetBit(PinMask(env.trictl, init), OeTab(env.trictl)[t]));
      assert LastIndexOf(ts, ValidCount) == (if ValidCount(t) then Some(|ts| - 1) else LastIndexOf(init, ValidCount));
      assert LastIndexOf(ts, BadCount) == (if BadCount(t) then Some(|ts| - 1) else LastIndexOf(init, BadCount));
    }
  }

  /** Over a prefix of counts and legal pin names the count/pin loop never breaks. */
  lemma {:induction false} CountWalkRuns(env: Env, w: Walk, ts: seq<string>, n: nat)
    requires env.Valid() && !w.stop && n <= |ts|
    requires forall i :: 0 <= i < n ==> IsCount(ts[i]) || ts[i] in OeTab(env.trictl)
    ensures !CountWalk(env, w, ts[..n]).stop
  {
    if n > 0 {
      CountWalkRuns(env, w, ts, n - 1);
      CountWalkSnoc(env, w, ts, n - 1);
    }
  }

  /** The count/pin walk of the first `n + 1` tokens is one step after the walk of the first `n`. */
  lemma CountWalkSnoc(env: Env, start: Walk, ops: seq<string>, n: nat)
    requires env.Valid() && n < |ops|
    ensures CountWalk(env, start, ops[..n + 1]) == CountStep(env, CountWalk(env, start, ops[..n]), ops[n])
  {
    assert ops[..n + 1][..n] == ops[..n];
  }

  /** A count/pin walk that has broken out after the first `n` tokens is the walk of the whole sequence. */
  lemma CountWalkStopsAt(env: Env, start: Walk, ops: seq<string>, n: nat)
    requires env.Valid() && n <= |ops| && CountWalk(env, start, ops[..n]).stop
    ensures CountWalk(env, start, ops) == CountWalk(env, start, ops[..n])
  {
    CountWalkStopped(env, start, ops[..n], ops[n..]);
    assert ops[..n] + ops[n..] == ops;
  }

  /**
   * The first token that is neither a count nor a legal pin name ends the
   * count/pin loop: it is reported with the legal names, and what follows it
   * is ignored.
   */
  lemma CountWalkBadPin(env: Env, b0: bv8, e0: Option<InstrError>, ts: seq<string>, j: nat)
    requires env.Valid() && j < |ts|
    requires forall i :: 0 <= i < j ==> IsCount(ts[i]) || ts[i] in OeTab(env.trictl)
    requires !IsCount(ts[j]) && ts[j] !in OeTab(env.trictl)
    ensures var start := Walk(b0, 0, 0, e0, false);
      var w := CountWalk(env, start, ts[..j]);
      CountWalk(env, start, ts) ==
        w.(error := Some(InvalidPin(ts[j], env.trictl, OeTab(env.trictl).Keys)), stop := true)
  {
    var start := Walk(b0, 0, 0, e0, false);
    CountWalkRuns(env, start, ts, j);
    CountWalkSnoc(env, start, ts, j);
    var w := CountWalk(env, start, ts[..j]);
    assert CountStep(env, w, ts[j]) == PinStep(env, w, ts[j]);
    CountWalkStopsAt(env, start, ts, j + 1);
  }

  /** A third legal `$n` is reported as one target too many, and the loop ends there. */
  lemma ThirdTargetRejected(env: Env, total: nat, b0: bv8, ts: seq<string>, j: nat)
    requires env.Valid() && j < |ts|
    requires var w := TargetWalk(env, total, Walk(b0, 0, 0, None, false), ts[..j]);
      w.error.None? && w.statex == 2
    requires IsTarget(ts[j]) && TargetOf(ts[j], total).Some?
    ensures var start := Walk(b0, 0, 0, None, false);
      var r := TargetWalk(env, total, start, ts);
      r.error == Some(TooManyTargets(ts[j])) && r.stop
      && r.branch == TargetWalk(env, total, start, ts[..j]).branch
      && r == TargetWalk(env, total, start, ts[..j]).(error := Some(TooManyTargets(ts[j])), statex := 3, stop := true)
  {
    var start := Walk(b0, 0, 0, None, false);
    TargetWalkClean(env, total, b0, ts[..j]);
    TargetWalkSnoc(env, total, start, ts, j);
    TargetWalkStopsAt(env, total, start, ts, j + 1);
  }

  /** Legal pin names only raise their bits in the output byte; branch, targets seen and error are kept. */
  lemma {:induction false} PinsKeepWalk(env: Env, total: nat, w: Walk, ts: seq<string>)
    requires env.Valid() && !w.stop && w.output == 0
    requires forall i :: 0 <= i < |ts| ==> ts[i] in OeTab(env.trictl)
    ensures TargetWalk(env, total, w, ts) == w.(output := PinMask(env.trictl, ts))
  {
    if ts != [] {
      var init, t := ts[..|ts| - 1], ts[|ts| - 1];
      assert forall i :: 0 <= i < |init| ==> init[i] == ts[i];
      PinsKeepWalk(env, total, w, init);
      OutputPinNames(env.trictl, t);
      assert !IsTarget(t);
    }
  }

  /**
   * From any walk still running, an operand that is a `$n` out of range or
   * an unknown pin name is reported and breaks the loop: branch, output and
   * targets seen stay those of the operands before it, whatever error the
   * walk carried.
   */
  lemma BadOperandBreaks(env: Env, total: nat, w: Walk, ts: seq<string>, j: nat)
    requires env.Valid() && j < |ts| && !TargetWalk(env, total, w, ts[..j]).stop
    requires IsTarget(ts[j]) ==> TargetOf(ts[j], total).None?
    requires !IsTarget(ts[j]) ==> ts[j] !in OeTab(env.trictl)
    ensures TargetWalk(env, total, w, ts) ==
      TargetWalk(env, total, w, ts[..j]).(
        error := Some(if IsTarget(ts[j]) then InvalidTarget(ts[j])
                      else InvalidPin(ts[j], env.trictl, OeTab(env.trictl).Keys)),
        stop := true)
  {
    TargetWalkSnoc(env, total, w, ts, j);
    TargetWalkStopsAt(env, total, w, ts, j + 1);
  }

  /**
   * With an error already recorded (an unknown mnemonic character), the
   * target loop breaks right after the first legal `$n` it assigns; the
   * legal pins before it have raised their bits.
   */
  lemma ErrorBreaksAfterFirstTarget(env: Env, total: nat, b0: bv8, e: InstrError, ts: seq<string>, j: nat)
    requires env.Valid() && j < |ts|
    requires forall i :: 0 <= i < j ==> ts[i] in OeTab(env.trictl)
    requires IsTarget(ts[j]) && TargetOf(ts[j], total).Some?
    ensures var start := Walk(b0, 0, 0, Some(e), false);
      TargetWalk(env, total, start, ts) ==
        Walk(WithBranch0(b0, TargetOf(ts[j], total).value), PinMask(env.trictl, ts[..j]), 1, Some(e), true)
  {
    var start := Walk(b0, 0, 0, Some(e), false);
    assert forall i :: 0 <= i < j ==> ts[..j][i] == ts[i];
    PinsKeepWalk(env, total, start, ts[..j]);
    TargetWalkSnoc(env, total, start, ts, j);
    TargetWalkStopsAt(env, total, start, ts, j + 1);
  }

  // ------------------------------------------------------------------
  // What Encode computes

  /** For both families, opcode bit k is set exactly when the k-th opcode letter occurs in the mnemonic. */
  lemma EncodeOpcode(env: Env, total: nat, stmt: Statement)
    requires env.Valid()
    ensures var op := Encode(env, total, stmt).rec.opcode;
      && (forall k :: 0 <= k < 6 ==> (Bit(op, k) <==> OPCODE_CHARS[k] in stmt.mnemonic))
      && !Bit(op, 6) && !Bit(op, 7)
  {
    ScanOpcodeBits(stmt.mnemonic);
  }

  /** A decision point with fewer than three operands reports them missing; only the mnemonic's bits are set. */
  lemma EncodeDpMissingOperands(env: Env, total: nat, stmt: Statement)
    requires env.Valid() && 'J' in stmt.mnemonic && |stmt.operands| < 3
    ensures var ins := Encode(env, total, stmt);
      && ins.error == Some(MissingOperands)
      && ins.rec.logfunc == 0 && ins.rec.output == 0
      && ins.rec.branch == (if Reexecutes(stmt.mnemonic) then 0x80 else 0)
  {
    ScanOpcodeBits(stmt.mnemonic);
    ScanBranch(stmt.mnemonic);
  }

  /**
   * A, B and func are checked in that order; the first one missing from its
   * table is reported (B with the legal names), the terms resolved before it
   * stay in the logic byte, and the branch and output bytes keep only what
   * the mnemonic set.
   */
  lemma EncodeDpBadOperands(env: Env, total: nat, stmt: Statement)
    requires env.Valid() && 'J' in stmt.mnemonic && |stmt.operands| >= 3
    ensures var ins := Encode(env, total, stmt);
      var ops, opermap := stmt.operands, OperTab(env.cfg5, env.flagSel, env.cfg7);
      && (ops[0] !in opermap ==>
          ins.error == Some(InvalidOperandA(ops[0])) && ins.rec.logfunc == 0)
      && (ops[0] in opermap && ops[2] !in opermap ==>
          && ins.error == Some(InvalidOperandB(ops[2], opermap.Keys))
          && ins.rec.logfunc == LogicByte(0, opermap[ops[0]], 0))
      && (ops[0] in opermap && ops[2] in opermap && ops[1] !in FUNC_TAB ==>
          && ins.error == Some(InvalidFunction(ops[1]))
          && ins.rec.logfunc == LogicByte(0, opermap[ops[0]], opermap[ops[2]]))
      && (ops[0] !in opermap || ops[2] !in opermap || ops[1] !in FUNC_TAB ==>
          ins.rec.output == 0 && ins.rec.branch == (if Reexecutes(stmt.mnemonic) then 0x80 else 0))
  {
    var sc := ScanMnemonic(stmt.mnemonic);
    assert sc.branch == (if Reexecutes(stmt.mnemonic) then 0x80 else 0) by {
      ScanBranch(stmt.mnemonic);
    }
    assert Bit(sc.opcode, DP_BIT) by {
      ScanOpcodeBits(stmt.mnemonic);
    }
    var r := EncodeDp(env, total, sc, stmt.operands);
    assert Encode(env, total, stmt) == Instr(stmt, r.0, r.1);
    EncodeDpEarlyExit(env, total, sc, stmt.operands);
  }

  /** The three early exits of the decision-point branch, on the operands alone. */
  lemma EncodeDpEarlyExit(env: Env, total: nat, sc: Scan, ops: seq<string>)
    requires env.Valid() && |ops| >= 3
    ensures var r := EncodeDp(env, total, sc, ops);
      var opermap := OperTab(env.cfg5, env.flagSel, env.cfg7);
      && (ops[0] !in opermap ==> r.1 == Some(InvalidOperandA(ops[0])) && r.0.logfunc == 0)
      && (ops[0] in opermap && ops[2] !in opermap ==>
          r.1 == Some(InvalidOperandB(ops[2], opermap.Keys)) && r.0.logfunc == LogicByte(0, opermap[ops[0]], 0))
      && (ops[0] in opermap && ops[2] in opermap && ops[1] !in FUNC_TAB ==>
          r.1 == Some(InvalidFunction(ops[1])) && r.0.logfunc == LogicByte(0, opermap[ops[0]], opermap[ops[2]]))
      && (ops[0] !in opermap || ops[2] !in opermap || ops[1] !in FUNC_TAB ==>
          r.0.output == 0 && r.0.branch == sc.branch)
  {
    var opermap := OperTab(env.cfg5, env.flagSel, env.cfg7);
    if ops[0] in opermap {
      FieldwiseLogicByte(0, 0, opermap[ops[0]], 0);
      if ops[2] in opermap {
        FieldwiseLogicByte(0, 0, opermap[ops[0]], opermap[ops[2]]);
      }
    }
  }

  /** The operands after A, func and B, and the `$n` targets among them. */
  function Rest(stmt: Statement): seq<string> {
    if |stmt.operands| < 3 then [] else stmt.operands[3..]
  }

  /** The target/pin loop of a decision point whose A, func and B resolve, and where it starts. */
  function DpWalk(env: Env, total: nat, stmt: Statement): Walk
    requires env.Valid()
  {
    var sc := ScanMnemonic(stmt.mnemonic);
    TargetWalk(env, total, Walk(WithBranch1(WithBranch0(sc.branch, 7), 7), 0, 0, sc.error, false), Rest(stmt))
  }

  lemma EncodeDpUnfold(env: Env, total: nat, stmt: Statement)
    requires env.Valid() && 'J' in stmt.mnemonic && |stmt.operands| >= 3
    requires var ops, opermap := stmt.operands, OperTab(env.cfg5, env.flagSel, env.cfg7);
      ops[0] in opermap && ops[2] in opermap && ops[1] in FUNC_TAB
    ensures var ops, opermap := stmt.operands, OperTab(env.cfg5, env.flagSel, env.cfg7);
      var w := DpWalk(env, total, stmt);
      Encode(env, total, stmt) ==
        Instr(stmt,
              Packed(w.branch, ScanMnemonic(stmt.mnemonic).opcode,
                     LogicByte(FUNC_TAB[ops[1]], opermap[ops[0]], opermap[ops[2]]), w.output),
              if w.error.None? && w.statex != 2 then Some(TargetsNotSpecified) else w.error)
  {
    var ops, opermap := stmt.operands, OperTab(env.cfg5, env.flagSel, env.cfg7);
    ScanOpcodeBits(stmt.mnemonic);
    FieldwiseLogicByte(0, FUNC_TAB[ops[1]], opermap[ops[0]], opermap[ops[2]]);
  }

  /**
   * A decision point whose A, func and B resolve: the logic byte is
   * `lfunc << 6 | terma << 3 | termb`, and the instruction is error-free
   * exactly when no mnemonic character is reported, every later operand is a
   * legal target or pin, and exactly two targets are given.
   */
  lemma EncodeDpResolved(env: Env, total: nat, stmt: Statement)
    requires env.Valid() && 'J' in stmt.mnemonic && |stmt.operands| >= 3
    requires var ops, opermap := stmt.operands, OperTab(env.cfg5, env.flagSel, env.cfg7);
      ops[0] in opermap && ops[2] in opermap && ops[1] in FUNC_TAB
    ensures var ins := Encode(env, total, stmt);
      var ops, opermap := stmt.operands, OperTab(env.cfg5, env.flagSel, env.cfg7);
      var rest := Rest(stmt);
      && ins.rec.logfunc == LogicByte(FUNC_TAB[ops[1]], opermap[ops[0]], opermap[ops[2]])
      && (ins.error.None? <==>
          && LastBad(stmt.mnemonic).None?
          && (forall i :: 0 <= i < |rest| ==> DpTokenOk(env, total, rest[i]))
          && |Filter(rest, IsTarget)| == 2)
  {
    EncodeDpUnfold(env, total, stmt);
    ScanError(stmt.mnemonic);
    var sc := ScanMnemonic(stmt.mnemonic);
    var b7 := WithBranch1(WithBranch0(sc.branch, 7), 7);
    if sc.error.None? {
      TargetWalkClean(env, total, b7, Rest(stmt));
    } else {
      TargetWalkErrorSticky(env, total, Walk(b7, 0, 0, sc.error, false), Rest(stmt));
    }
  }

  /** The branch field the `k`-th given target fills: its state number, or 7 when there is none. */
  function TargetField(targets: seq<string>, k: nat, total: nat): (v: nat)
    ensures v < 8
  {
    if k < |targets| && IsTarget(targets[k]) && TargetOf(targets[k], total).Some? then
      TargetOf(targets[k], total).value
    else 7
  }

  /**
   * A decision point whose A, func and B resolve, with no reported mnemonic
   * character and only legal later operands, at most two of them targets:
   * the targets fill branch0 then branch1, a missing one stays 7 and fewer
   * than two is reported as unspecified; the pins' bits make the output byte
   * and the re-execute bit follows a `*` after `J`.
   */
  lemma EncodeDpTargets(env: Env, total: nat, stmt: Statement)
    requires env.Valid() && 'J' in stmt.mnemonic && |stmt.operands| >= 3
    requires var ops, opermap := stmt.operands, OperTab(env.cfg5, env.flagSel, env.cfg7);
      ops[0] in opermap && ops[2] in opermap && ops[1] in FUNC_TAB
    requires LastBad(stmt.mnemonic).None?
    requires forall i :: 0 <= i < |Rest(stmt)| ==> DpTokenOk(env, total, Rest(stmt)[i])
    requires |Filter(Rest(stmt), IsTarget)| <= 2
    ensures var ins := Encode(env, total, stmt);
      var targets := Filter(Rest(stmt), IsTarget);
      && (|targets| < 2 ==> ins.error == Some(TargetsNotSpecified))
      && (if |targets| >= 1 then Some(Branch0(ins.rec.branch)) == TargetOf(targets[0], total)
          else Branch0(ins.rec.branch) == 7)
      && (if |targets| == 2 then Some(Branch1(ins.rec.branch)) == TargetOf(targets[1], total)
          else Branch1(ins.rec.branch) == 7)
      && Bit(ins.rec.branch, REEXECUTE_BIT) == Reexecutes(stmt.mnemonic)
      && !Bit(ins.rec.branch, 6)
      && ins.rec.branch == BranchByte(TargetField(targets, 0, total), TargetField(targets, 1, total), Reexecutes(stmt.mnemonic))
      && ins.rec.output == PinMask(env.trictl, Rest(stmt))
  {
    var sc := ScanMnemonic(stmt.mnemonic);
    var b7 := WithBranch1(WithBranch0(sc.branch, 7), 7);
    var rest, targets := Rest(stmt), Filter(Rest(stmt), IsTarget);
    var w := DpWalk(env, total, stmt);
    var ins := Encode(env, total, stmt);
    assert ins.rec.branch == w.branch && ins.rec.output == w.output
        && ins.error == (if w.error.None? && w.statex != 2 then Some(TargetsNotSpecified) else w.error) by {
      EncodeDpUnfold(env, total, stmt);
    }
    assert sc.error.None? by {
      ScanError(stmt.mnemonic);
    }
    assert Branch0(b7) == 7 && Branch1(b7) == 7 && !Bit(b7, 6) && Bit(b7, 7) == Reexecutes(stmt.mnemonic) by {
      ScanBranch(stmt.mnemonic);
    }
    assert w == TargetWalk(env, total, Walk(b7, 0, 0, None, false), rest);
    TargetWalkClean(env, total, b7, rest);
    TargetWalkFields(env, total, b7, rest);
    BranchOfTargets(w.branch, targets, total, Reexecutes(stmt.mnemonic));
  }

  /** A branch byte whose fields hold the given targets (7 where missing) is their packing. */
  lemma BranchOfTargets(b: bv8, targets: seq<string>, total: nat, re: bool)
    requires forall i :: 0 <= i < |targets| ==> IsTarget(targets[i])
    requires if |targets| >= 1 then Some(Branch0(b)) == TargetOf(targets[0], total) else Branch0(b) == 7
    requires if |targets| >= 2 then Some(Branch1(b)) == TargetOf(targets[1], total) else Branch1(b) == 7
    requires Bit(b, REEXECUTE_BIT) == re && !Bit(b, 6)
    ensures b == BranchByte(TargetField(targets, 0, total), TargetField(targets, 1, total), re)
  {
    BranchByteOfFields(b);
  }

  /**
   * In the target/pin loop, after legal operands with at most two targets,
   * an operand that is neither a `$n` nor a pin name of the TRICTL in effect
   * is reported with the legal names, and the loop ends there.
   */
  lemma TargetWalkBadPin(env: Env, total: nat, b0: bv8, ts: seq<string>, j: nat)
    requires env.Valid() && j < |ts|
    requires forall i :: 0 <= i < j ==> DpTokenOk(env, total, ts[i])
    requires |Filter(ts[..j], IsTarget)| <= 2
    requires !IsTarget(ts[j]) && ts[j] !in OeTab(env.trictl)
    ensures var start := Walk(b0, 0, 0, None, false);
      var w := TargetWalk(env, total, start, ts[..j]);
      && TargetWalk(env, total, start, ts).error == Some(InvalidPin(ts[j], env.trictl, OeTab(env.trictl).Keys))
      && TargetWalk(env, total, start, ts) ==
        w.(error := Some(InvalidPin(ts[j], env.trictl, OeTab(env.trictl).Keys)), stop := true)
      && w.output == PinMask(env.trictl, ts[..j])
  {
    var start := Walk(b0, 0, 0, None, false);
    assert forall i :: 0 <= i < j ==> ts[..j][i] == ts[i];
    TargetWalkClean(env, total, b0, ts[..j]);
    TargetWalkFields(env, total, b0, ts[..j]);
    BadOperandBreaks(env, total, start, ts, j);
  }

  /**
   * A decision point whose A, func and B resolve and whose mnemonic is clean:
   * the first operand after them that is neither a legal `$n` within the
   * first two nor a pin name of the TRICTL in effect is reported with the
   * legal pin names.
   */
  lemma EncodeDpBadPin(env: Env, total: nat, stmt: Statement, j: nat)
    requires env.Valid() && 'J' in stmt.mnemonic && |stmt.operands| >= 3
    requires var ops, opermap := stmt.operands, OperTab(env.cfg5, env.flagSel, env.cfg7);
      ops[0] in opermap && ops[2] in opermap && ops[1] in FUNC_TAB
    requires LastBad(stmt.mnemonic).None? && j < |Rest(stmt)|
    requires forall i :: 0 <= i < j ==> DpTokenOk(env, total, Rest(stmt)[i])
    requires |Filter(Rest(stmt)[..j], IsTarget)| <= 2
    requires !IsTarget(Rest(stmt)[j]) && Rest(stmt)[j] !in OeTab(env.trictl)
    ensures Encode(env, total, stmt).error == Some(InvalidPin(Rest(stmt)[j], env.trictl, OeTab(env.trictl).Keys))
  {
    EncodeDpUnfold(env, total, stmt);
    ScanError(stmt.mnemonic);
    var sc := ScanMnemonic(stmt.mnemonic);
    TargetWalkBadPin(env, total, WithBranch1(WithBranch0(sc.branch, 7), 7), Rest(stmt), j);
  }

  /**
   * A decision point whose A, func and B resolve and whose mnemonic is clean:
   * the first `$n` out of range after legal operands with at most two
   * targets is reported as an invalid target state.
   */
  lemma EncodeDpBadTarget(env: Env, total: nat, stmt: Statement, j: nat)
    requires env.Valid() && 'J' in stmt.mnemonic && |stmt.operands| >= 3
    requires var ops, opermap := stmt.operands, OperTab(env.cfg5, env.flagSel, env.cfg7);
      ops[0] in opermap && ops[2] in opermap && ops[1] in FUNC_TAB
    requires LastBad(stmt.mnemonic).None? && j < |Rest(stmt)|
    requires forall i :: 0 <= i < j ==> DpTokenOk(env, total, Rest(stmt)[i])
    requires |Filter(Rest(stmt)[..j], IsTarget)| <= 2
    requires IsTarget(Rest(stmt)[j]) && TargetOf(Rest(stmt)[j], total).None?
    ensures Encode(env, total, stmt).error == Some(InvalidTarget(Rest(stmt)[j]))
  {
    EncodeDpUnfold(env, total, stmt);
    ScanError(stmt.mnemonic);
    var sc := ScanMnemonic(stmt.mnemonic);
    var rest := Rest(stmt);
    var b7 := WithBranch1(WithBranch0(sc.branch, 7), 7);
    assert forall i :: 0 <= i < j ==> rest[..j][i] == rest[i];
    TargetWalkClean(env, total, b7, rest[..j]);
    BadOperandBreaks(env, total, Walk(b7, 0, 0, None, false), rest, j);
  }

  /**
   * A non-decision point whose operands are counts and legal pin names: the
   * branch byte is the last valid count (1 when there is none), the output
   * byte holds the pins' bits, the logic byte is 0, and the error is the last
   * bad count's, else the mnemonic's.
   */
  lemma EncodeNdp(env: Env, total: nat, stmt: Statement)
    requires env.Valid() && 'J' !in stmt.mnemonic
    requires forall i :: 0 <= i < |stmt.operands| ==> IsCount(stmt.operands[i]) || stmt.operands[i] in OeTab(env.trictl)
    ensures var ins := Encode(env, total, stmt);
      var ops := stmt.operands;
      && ins.rec.logfunc == 0
      && ins.rec.output == PinMask(env.trictl, ops)
      && ins.rec.branch == (match LastIndexOf(ops, ValidCount) case None => 1 case Some(i) => CountOf(ops[i]).value)
      && ins.error == (match LastIndexOf(ops, BadCount)
                       case Some(i) => Some(CountOf(ops[i]).error)
                       case None => match LastBad(stmt.mnemonic) case None => None case Some(j) => Some(UnknownOpcode(stmt.mnemonic[j])))
  {
    ScanOpcodeBits(stmt.mnemonic);
    ScanError(stmt.mnemonic);
    CountWalkMeaning(env, 1, ScanMnemonic(stmt.mnemonic).error, stmt.operands);
  }

  /**
   * In a non-decision point the first operand that is neither a count nor a
   * legal pin name is reported with the legal names of the TRICTL in effect.
   */
  lemma EncodeNdpBadPin(env: Env, total: nat, stmt: Statement, j: nat)
    requires env.Valid() && 'J' !in stmt.mnemonic && j < |stmt.operands|
    requires forall i :: 0 <= i < j ==> IsCount(stmt.operands[i]) || stmt.operands[i] in OeTab(env.trictl)
    requires !IsCount(stmt.operands[j]) && stmt.operands[j] !in OeTab(env.trictl)
    ensures Encode(env, total, stmt).error == Some(InvalidPin(stmt.operands[j], env.trictl, OeTab(env.trictl).Keys))
  {
    ScanOpcodeBits(stmt.mnemonic);
    CountWalkBadPin(env, 1, ScanMnemonic(stmt.mnemonic).error, stmt.operands, j);
  }

  /** Decimal value of a three-digit numeral. */
  lemma ValueOfThreeDigits(t: string)
    requires |t| == 3 && AllDigits(t)
    ensures Value(t) == 100 * (t[0] - '0') as nat + 10 * (t[1] - '0') as nat + (t[2] - '0') as nat
  {
    var a, b := t[..1], t[..2];
    assert t[..|t| - 1] == b && b[..|b| - 1] == a && a[..0] == [];
    assert Value(a) == (t[0] - '0') as nat;
    assert Value(b) == 10 * Value(a) + (t[1] - '0') as nat;
  }

  /** Count boundaries: 256 is stored as 0 and 257 is out of range. */
  lemma CountBoundaries()
    ensures CountOf("256") == Success(0)
    ensures CountOf("257") == Failure(InvalidCountValue(257))
  {
    ValueOfThreeDigits("256");
    ValueOfThreeDigits("257");
  }

  /** A count of 0 is accepted and stored as 0; trailing text after the digits is an invalid count. */
  lemma CountZeroAndTrailing()
    ensures CountOf("0") == Success(0)
    ensures CountOf("3x") == Failure(InvalidCount("3x"))
  {
    assert "0"[..0] == [];
    assert !IsDigit("3x"[1]);
  }

  /** Target boundaries: a bare `$` is state 0, `$7` is legal whatever the count, `$8` never is. */
  lemma TargetBoundaries(total: nat)
    ensures TargetOf("$", total) == Some(0)
    ensures TargetOf("$7", total) == Some(7)
    ensures TargetOf("$8", total) == None
    ensures TargetOf("$3", total).Some? <==> total >= 3
    ensures TargetOf("$1x", total) == None
  {
    assert "$"[1..] == [];
    assert "$7"[1..] == "7" && "7"[..0] == [];
    assert "$8"[1..] == "8" && "8"[..0] == [];
    assert "$3"[1..] == "3" && "3"[..0] == [];
    assert "$1x"[1..] == "1x" && !IsDigit("1x"[1]);
  }

  /** `S 3 CTL0` under the initial environment: a 3-count, the SGL opcode bit and the CTL0 output bit. */
  lemma SingleStateExample()
    ensures var stmt := Statement("S", ["3", "CTL0"], "");
      Encode(INITIAL_ENV, 1, stmt) == Instr(stmt, Packed(0x03, 0x20, 0x00, 0x01), None)
  {
    var stmt := Statement("S", ["3", "CTL0"], "");
    var ops := stmt.operands;
    assert "S"[..0] == [];
    assert ScanMnemonic("S") == Scan(0x20, 0, None);
    assert "3"[..0] == [] && CountOf("3") == Success(3);
    assert ops[..1] == ["3"] && ops[..0] == [];
    OutputPinNames(0, "CTL0");
    assert PinMask(0, ops[..1]) == 0;
    assert PinMask(0, ops) == 1;
    assert LastIndexOf(ops, ValidCount) == Some(0);
    assert LastIndexOf(ops[..1], BadCount) == None;
    assert LastIndexOf(ops, BadCount) == None;
    EncodeNdp(INITIAL_ENV, 1, stmt);
  }

  /** `J RDY0 AND RDY1 $2 $5` in a program of five instructions: terms 0 and 1 under AND, branches 2 and 5. */
  lemma DecisionPointExample()
    ensures var stmt := Statement("J", ["RDY0", "AND", "RDY1", "$2", "$5"], "");
      Encode(INITIAL_ENV, 5, stmt) == Instr(stmt, Packed(0x2A, 0x01, 0x01, 0x00), None)
  {
    var stmt := Statement("J", ["RDY0", "AND", "RDY1", "$2", "$5"], "");
    assert "J"[..0] == [];
    assert ScanMnemonic("J") == Scan(0x01, 0, None);
    OperandReadyCodes(0, 0, 0);
    assert FUNC_TAB["AND"] == 0 && LogicByte(0, 0, 1) == 0x01;
    DecisionPointExampleWalk(stmt);
    EncodeDpUnfold(INITIAL_ENV, 5, stmt);
  }

  lemma DecisionPointExampleWalk(stmt: Statement)
    requires stmt == Statement("J", ["RDY0", "AND", "RDY1", "$2", "$5"], "")
    ensures DpWalk(INITIAL_ENV, 5, stmt) == Walk(0x2A, 0, 2, None, false)
  {
    assert "J"[..0] == [];
    assert ScanMnemonic("J") == Scan(0x01, 0, None);
    var rest := Rest(stmt);
    assert rest == ["$2", "$5"] && rest[..1] == ["$2"];
    assert "$2"[1..] == "2" && "2"[..0] == [] && "$5"[1..] == "5" && "5"[..0] == [];
    assert TargetOf("$2", 5) == Some(2) && TargetOf("$5", 5) == Some(5);
    var b7 := WithBranch1(WithBranch0(0, 7), 7);
    var w0 := Walk(b7, 0, 0, None, false);
    var w1 := TargetWalk(INITIAL_ENV, 5, w0, rest[..1]);
    assert rest[..1][..0] == [] && rest[..1][0] == "$2" && IsTarget("$2") && IsTarget("$5");
    assert TargetWalk(INITIAL_ENV, 5, w0, []) == w0;
    assert w1 == TargetStep(INITIAL_ENV, 5, w0, "$2");
    assert w1 == Walk(WithBranch0(b7, 2), 0, 1, None, false);
    assert rest[..|rest| - 1] == rest[..1];
    assert WithBranch1(WithBranch0(b7, 2), 5) == 0x2A;
  }
}
