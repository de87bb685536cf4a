/**
 * The assembler's main program after tokenising: directives update the
 * environment while the statements are read and every other statement is
 * pushed onto the instruction list; the list is then encoded in place under
 * the final environment, checked against the state limit, padded to eight
 * records and written out as four planes of eight bytes.
 *
 * Assemble is the specification of one run; the Assembler class holds the
 * run's mutable state (`environ`, `instrs`) and Run drives it, proved equal
 * to Assemble.
 */
module Assembler {
  import opened Wrappers
  import opened Tables
  import opened Directives
  import opened Encoder

  /** The number of records in a wave table. */
  const STATES: nat := 8

  /** A statement whose mnemonic is a directive name. */
  predicate IsDirective(s: Statement) {
    s.mnemonic in PSEUDO_TAB
  }

  /** What is pushed for an instruction statement: cleared fields, no error. */
  function Pushed(s: Statement): Instr {
    Instr(s, CLEARED, None)
  }

  function PushedAll(prog: seq<Statement>): (r: seq<Instr>)
    ensures |r| == |prog|
  {
    seq(|prog|, i requires 0 <= i < |prog| => Pushed(prog[i]))
  }

  /** The record `resize` appends: no text, all four bytes zero. */
  const PADDING: Instr := Instr(Statement("", [], ""), CLEARED, None)

  /** One run's output: the waveform number naming the array, the encoded listing, and the array's bytes. */
  datatype Output = Output(waveform: nat, listing: seq<Instr>, bytes: seq<bv8>)

  // ------------------------------------------------------------------
  // Reading

  /**
   * The reading loop: the environment the directives leave and the
   * instruction statements in order, or the first directive error.
   */
  function Collect(stmts: seq<Statement>): (r: Result<(Env, seq<Statement>), Fatal>)
    ensures r.Success? ==> r.value.0.Valid()
  {
    if stmts == [] then Success((INITIAL_ENV, []))
    else
      var s := stmts[|stmts| - 1];
      match Collect(stmts[..|stmts| - 1])
      case Failure(e) => Failure(e)
      case Success(acc) =>
        if IsDirective(s) then
          match ApplyDirective(acc.0, PSEUDO_TAB[s.mnemonic], s.operands)
          case Failure(e) => Failure(e)
          case Success(env) => Success((env, acc.1))
        else Success((acc.0, acc.1 + [s]))
  }

  /** The directive statements, in order. */
  function DirectivesOf(stmts: seq<Statement>): (r: seq<Statement>)
    ensures forall i :: 0 <= i < |r| ==> IsDirective(r[i])
  {
    if stmts == [] then []
    else
      var init := DirectivesOf(stmts[..|stmts| - 1]);
      if IsDirective(stmts[|stmts| - 1]) then init + [stmts[|stmts| - 1]] else init
  }

  /** The instruction statements, in order. */
  function InstructionsOf(stmts: seq<Statement>): (r: seq<Statement>)
    ensures forall i :: 0 <= i < |r| ==> !IsDirective(r[i])
  {
    if stmts == [] then []
    else
      var init := InstructionsOf(stmts[..|stmts| - 1]);
      if IsDirective(stmts[|stmts| - 1]) then init else init + [stmts[|stmts| - 1]]
  }

  /** The directives applied one after the other, stopping at the first that fails. */
  function Configure(env: Env, ds: seq<Statement>): (r: Result<Env, Fatal>)
    requires forall i :: 0 <= i < |ds| ==> IsDirective(ds[i])
    ensures env.Valid() && r.Success? ==> r.value.Valid()
    ensures ds == [] ==> r == Success(env)
  {
    if ds == [] then Success(env)
    else
      var d := ds[|ds| - 1];
      assert IsDirective(d);
      match Configure(env, ds[..|ds| - 1])
      case Failure(e) => Failure(e)
      case Success(e1) => ApplyDirective(e1, PSEUDO_TAB[d.mnemonic], d.operands)
  }

  /**
   * Directives and instructions may be interleaved: the environment is the
   * directives' in their order, wherever they stand, and the program is the
   * other statements in their order.
   */
  lemma {:induction false} CollectSeparates(stmts: seq<Statement>)
    ensures Collect(stmts) ==
      match Configure(INITIAL_ENV, DirectivesOf(stmts))
      case Failure(e) => Failure(e)
      case Success(env) => Success((env, InstructionsOf(stmts)))
  {
    if stmts != [] {
      var init, s := stmts[..|stmts| - 1], stmts[|stmts| - 1];
      CollectSeparates(init);
      if IsDirective(s) {
        var ds := DirectivesOf(stmts);
        assert ds[..|ds| - 1] == DirectivesOf(init);
      }
    }
  }

  /** The first directive error ends the reading: later statements change nothing. */
  lemma {:induction false} CollectStopsAtFatal(stmts: seq<Statement>, n: nat)
    requires n <= |stmts| && Collect(stmts[..n]).Failure?
    ensures Collect(stmts) == Collect(stmts[..n])
  {
    if n < |stmts| {
      var init := stmts[..|stmts| - 1];
      assert init[..n] == stmts[..n];
      CollectStopsAtFatal(init, n);
    } else {
      assert stmts[..n] == stmts;
    }
  }

  // ------------------------------------------------------------------
  // The wave table

  /** Every instruction encoded under the final environment, knowing how many there are. */
  function EncodeProgram(env: Env, prog: seq<Statement>): (r: seq<Instr>)
    requires env.Valid()
    ensures |r| == |prog| && forall i :: 0 <= i < |r| ==> r[i].stmt == prog[i]
  {
    seq(|prog|, i requires 0 <= i < |prog| => Encode(env, |prog|, prog[i]))
  }

  /** `resize(8)`: the listing followed by padding records. */
  function Padded(listing: seq<Instr>): (r: seq<Instr>)
    requires |listing| <= STATES
    ensures |r| == STATES && r[..|listing|] == listing
    ensures forall i :: |listing| <= i < STATES ==> r[i].rec == CLEARED && r[i].error.None?
  {
    listing + seq(STATES - |listing|, _ => PADDING)
  }

  /** The four bytes of a record, in the order the array lists their planes. */
  datatype Field = BranchField | OpcodeField | OutputField | LogicField

  function FieldOf(rec: Packed, f: Field): bv8 {
    match f
    case BranchField => rec.branch
    case OpcodeField => rec.opcode
    case OutputField => rec.output
    case LogicField => rec.logfunc
  }

  /** One byte from every record of the table. */
  function Plane(table: seq<Instr>, f: Field): (r: seq<bv8>) {
    seq(|table|, i requires 0 <= i < |table| => FieldOf(table[i].rec, f))
  }

  /** The array: branch bytes, then opcode bytes, then output bytes, then logic-function bytes. */
  function Planes(table: seq<Instr>): (r: seq<bv8>)
    ensures |r| == 4 * |table|
    ensures forall i :: 0 <= i < |table| ==>
      && r[i] == table[i].rec.branch
      && r[|table| + i] == table[i].rec.opcode
      && r[2 * |table| + i] == table[i].rec.output
      && r[3 * |table| + i] == table[i].rec.logfunc
  {
    Plane(table, BranchField) + Plane(table, OpcodeField) + Plane(table, OutputField) + Plane(table, LogicField)
  }

  /** Byte `k` of the array of an eight-record table: plane `k / 8`, record `k % 8`. */
  function TableByte(table: seq<Instr>, k: nat): bv8
    requires |table| == STATES && k < 4 * STATES
  {
    var rec := table[k % STATES].rec;
    if k < STATES then rec.branch
    else if k < 2 * STATES then rec.opcode
    else if k < 3 * STATES then rec.output
    else rec.logfunc
  }

  /** The planes of an eight-record table are 32 bytes, byte `k` coming from record `k % 8`. */
  lemma PlanesLayout(table: seq<Instr>)
    requires |table| == STATES
    ensures |Planes(table)| == 4 * STATES
    ensures forall k :: 0 <= k < 4 * STATES ==> Planes(table)[k] == TableByte(table, k)
  {
    var b, o := Plane(table, BranchField), Plane(table, OpcodeField);
    var u, l := Plane(table, OutputField), Plane(table, LogicField);
    forall k | 0 <= k < 4 * STATES
      ensures Planes(table)[k] == TableByte(table, k)
    {
      if k < 8 {
        assert Planes(table)[k] == b[k];
      } else if k < 16 {
        assert Planes(table)[k] == o[k - 8];
      } else if k < 24 {
        assert Planes(table)[k] == u[k - 16];
      } else {
        assert Planes(table)[k] == l[k - 24];
      }
    }
  }

  /** The array keeps every byte of every record: two tables with the same array have the same records. */
  lemma PlanesKeepRecords(t1: seq<Instr>, t2: seq<Instr>)
    requires |t1| == |t2| == STATES && Planes(t1) == Planes(t2)
    ensures forall i :: 0 <= i < STATES ==> t1[i].rec == t2[i].rec
  {
    PlanesLayout(t1);
    PlanesLayout(t2);
    forall i | 0 <= i < STATES
      ensures t1[i].rec == t2[i].rec
    {
      assert TableByte(t1, i) == TableByte(t2, i);
      assert TableByte(t1, i + 8) == TableByte(t2, i + 8);
      assert TableByte(t1, i + 16) == TableByte(t2, i + 16);
      assert TableByte(t1, i + 24) == TableByte(t2, i + 24);
    }
  }

  /**
   * One run: read the statements, encode the instructions under the final
   * environment, stop when the eighth state is counted, otherwise emit the
   * padded table. Errors attached to instructions do not stop the output.
   */
  function Assemble(stmts: seq<Statement>): (r: Result<Output, Fatal>)
    ensures r.Success? ==> |r.value.listing| < STATES && |r.value.bytes| == 4 * STATES
    ensures r.Failure? ==> Collect(stmts).Failure? || r.error == TooManyStates
  {
    match Collect(stmts)
    case Failure(e) => Failure(e)
    case Success(acc) =>
      var listing := EncodeProgram(acc.0, acc.1);
      if |listing| >= STATES then Failure(TooManyStates)
      else Success(Output(acc.0.waveform, listing, Planes(Padded(listing))))
  }

  /** The record at state `i` of the padded table. */
  function RecordAt(listing: seq<Instr>, i: nat): Packed {
    if i < |listing| then listing[i].rec else CLEARED
  }

  /**
   * The array of a padded listing: 32 bytes, state `i`'s four bytes in the
   * four planes, the states past the listing zero.
   */
  lemma PaddedPlanes(listing: seq<Instr>)
    requires |listing| < STATES
    ensures var bytes := Planes(Padded(listing));
      && |bytes| == 4 * STATES
      && (forall i :: 0 <= i < STATES ==>
          && bytes[i] == RecordAt(listing, i).branch
          && bytes[STATES + i] == RecordAt(listing, i).opcode
          && bytes[2 * STATES + i] == RecordAt(listing, i).output
          && bytes[3 * STATES + i] == RecordAt(listing, i).logfunc)
  {
    var table := Padded(listing);
    PlanesLayout(table);
    var bytes := Planes(table);
    forall i | 0 <= i < STATES
      ensures && bytes[i] == RecordAt(listing, i).branch
              && bytes[STATES + i] == RecordAt(listing, i).opcode
              && bytes[2 * STATES + i] == RecordAt(listing, i).output
              && bytes[3 * STATES + i] == RecordAt(listing, i).logfunc
    {
      assert table[i].rec == RecordAt(listing, i);
      assert TableByte(table, i) == table[i].rec.branch;
      assert TableByte(table, STATES + i) == table[i].rec.opcode;
      assert TableByte(table, 2 * STATES + i) == table[i].rec.output;
      assert TableByte(table, 3 * STATES + i) == table[i].rec.logfunc;
    }
  }

  /**
   * A run emits an array exactly when its directives are valid and it has at
   * most seven instructions, whatever errors the instructions carry; the
   * array has 32 bytes in four planes, state `i` holding instruction `i`'s
   * record and the states past the program holding zero bytes.
   */
  lemma AssembleOutput(stmts: seq<Statement>)
    ensures Assemble(stmts).Success? <==> Collect(stmts).Success? && |Collect(stmts).value.1| < STATES
    ensures Collect(stmts).Success? && |Collect(stmts).value.1| >= STATES ==> Assemble(stmts) == Failure(TooManyStates)
    ensures Collect(stmts).Failure? ==> Assemble(stmts) == Failure(Collect(stmts).error)
    ensures Assemble(stmts).Success? ==>
      var out, env, prog := Assemble(stmts).value, Collect(stmts).value.0, Collect(stmts).value.1;
      && out.waveform == env.waveform
      && |out.listing| == |prog|
      && (forall i :: 0 <= i < |prog| ==> out.listing[i] == Encode(env, |prog|, prog[i]))
      && |out.bytes| == 4 * STATES
      && (forall i :: 0 <= i < STATES ==>
          && out.bytes[i] == RecordAt(out.listing, i).branch
          && out.bytes[STATES + i] == RecordAt(out.listing, i).opcode
          && out.bytes[2 * STATES + i] == RecordAt(out.listing, i).output
          && out.bytes[3 * STATES + i] == RecordAt(out.listing, i).logfunc)
  {
    if Assemble(stmts).Success? {
      PaddedPlanes(Assemble(stmts).value.listing);
    }
  }

  /** `.EP 2` then `S 3 CTL0`: one 3-count state with SGL and CTL0, then seven zero records. */
  lemma SingleStateProgram()
    ensures var stmts := [Statement(".EP", ["2"], ""), Statement("S", ["3", "CTL0"], "")];
      Assemble(stmts) == Success(Output(0, [Instr(stmts[1], Packed(0x03, 0x20, 0x00, 0x01), None)],
        [0x03, 0, 0, 0, 0, 0, 0, 0,
         0x20, 0, 0, 0, 0, 0, 0, 0,
         0x01, 0, 0, 0, 0, 0, 0, 0,
         0x00, 0, 0, 0, 0, 0, 0, 0]))
  {
    var stmts := [Statement(".EP", ["2"], ""), Statement("S", ["3", "CTL0"], "")];
    SingleStateCollect(stmts);
    SingleStateExample();
    var listing := [Instr(stmts[1], Packed(0x03, 0x20, 0x00, 0x01), None)];
    assert EncodeProgram(INITIAL_ENV, [stmts[1]]) == listing;
    SingleStateBytes(listing);
  }

  lemma SingleStateCollect(stmts: seq<Statement>)
    requires stmts == [Statement(".EP", ["2"], ""), Statement("S", ["3", "CTL0"], "")]
    ensures Collect(stmts) == Success((INITIAL_ENV, [stmts[1]]))
  {
    assert "2"[..0] == [] && ApplyDirective(INITIAL_ENV, Ep, ["2"]) == Success(INITIAL_ENV);
    assert stmts[..1][..0] == [] && stmts[..|stmts| - 1] == stmts[..1];
    assert Collect(stmts[..1]) == Success((INITIAL_ENV, []));
    var s1 := stmts[|stmts| - 1];
    assert s1 == stmts[1] && !IsDirective(s1);
    assert Collect(stmts) == Success((INITIAL_ENV, [] + [s1]));
    assert [] + [s1] == [stmts[1]];
  }

  lemma SingleStateBytes(listing: seq<Instr>)
    requires |listing| == 1 && listing[0].rec == Packed(0x03, 0x20, 0x00, 0x01)
    ensures Planes(Padded(listing)) ==
        [0x03, 0, 0, 0, 0, 0, 0, 0,
         0x20, 0, 0, 0, 0, 0, 0, 0,
         0x01, 0, 0, 0, 0, 0, 0, 0,
         0x00, 0, 0, 0, 0, 0, 0, 0]
  {
    var table := Padded(listing);
    assert table[0] == table[..1][0] == listing[0];
    SinglePlane(table, BranchField);
    SinglePlane(table, OpcodeField);
    SinglePlane(table, OutputField);
    SinglePlane(table, LogicField);
  }

  /** A plane of a table whose records past the first are cleared: its first byte, then seven zeros. */
  lemma SinglePlane(table: seq<Instr>, f: Field)
    requires |table| == STATES && forall i :: 1 <= i < STATES ==> table[i].rec == CLEARED
    ensures Plane(table, f) == [FieldOf(table[0].rec, f), 0, 0, 0, 0, 0, 0, 0]
  {
    var p := Plane(table, f);
    forall i | 1 <= i < STATES
      ensures p[i] == 0
    {
      assert table[i].rec == CLEARED;
    }
  }

  // ------------------------------------------------------------------
  // The run's state, updated in place

  class Assembler {
    /** `environ`: the directive values in effect. */
    var environ: Env
    /** `instrs`: the instruction list, pushed while reading and encoded in place. */
    var instrs: seq<Instr>

    constructor ()
      ensures environ == INITIAL_ENV && instrs == []
    {
      environ := INITIAL_ENV;
      instrs := [];
    }

    /**
     * One statement of the reading loop: a directive checks its operand and
     * stores its value, or returns the error that ends the run; any other
     * statement is pushed with cleared fields.
     */
    method Read(s: Statement) returns (fatal: Option<Fatal>)
      requires environ.Valid()
      modifies this
      ensures !IsDirective(s) ==>
        fatal.None? && environ == old(environ) && instrs == old(instrs) + [Pushed(s)]
      ensures IsDirective(s) ==> (
        && instrs == old(instrs)
        && match ApplyDirective(old(environ), PSEUDO_TAB[s.mnemonic], s.operands)
           case Failure(e) => fatal == Some(e) && environ == old(environ)
           case Success(env) => fatal.None? && environ == env)
    {
      if s.mnemonic in PSEUDO_TAB {
        var r := ApplyDirective(environ, PSEUDO_TAB[s.mnemonic], s.operands);
        if r.Failure? {
          return Some(r.error);
        }
        environ := r.value;
        fatal := None;
      } else {
        instrs := instrs + [Pushed(s)];
        fatal := None;
      }
    }

    /**
     * The encoding loop `for (auto& instr : instrs)`: each record is replaced
     * by its encoding under the environment, the program's length being the
     * bound on branch targets.
     */
    method EncodeAll()
      requires environ.Valid()
      requires forall i :: 0 <= i < |instrs| ==> instrs[i].rec == CLEARED && instrs[i].error.None?
      modifies this
      ensures environ == old(environ) && |instrs| == |old(instrs)|
      ensures forall i :: 0 <= i < |instrs| ==> instrs[i] == Encode(environ, |instrs|, old(instrs)[i].stmt)
    {
      var n := |instrs|;
      for i := 0 to n
        invariant environ == old(environ) && |instrs| == n
        invariant forall j :: 0 <= j < i ==> instrs[j] == Encode(environ, n, old(instrs)[j].stmt)
        invariant forall j :: i <= j < n ==> instrs[j] == old(instrs)[j]
      {
        var ins := EncodeInstr(environ, n, instrs[i].stmt);
        instrs := instrs[i := ins];
      }
    }

    /** The listing loop's state counter: it stops the run when it passes 7, before any output. */
    method CountStates() returns (ok: bool)
      ensures ok <==> |instrs| < STATES
    {
      var state := 0;
      for i := 0 to |instrs|
        invariant state == i < STATES
      {
        state := state + 1;
        if state > 7 {
          return false;
        }
      }
      ok := true;
    }

    /** `resize(8)`: the list grows to eight records with padding. */
    method Resize()
      requires |instrs| <= STATES
      modifies this
      ensures environ == old(environ) && instrs == Padded(old(instrs))
    {
      while |instrs| < STATES
        invariant |old(instrs)| <= |instrs| <= STATES
        invariant instrs == old(instrs) + seq(|instrs| - |old(instrs)|, _ => PADDING)
        invariant environ == old(environ)
        decreases STATES - |instrs|
      {
        instrs := instrs + [PADDING];
      }
    }

    /** The four output loops: branch bytes, opcode bytes, output bytes, logic-function bytes. */
    method Emit() returns (bytes: seq<bv8>)
      requires |instrs| == STATES
      ensures bytes == Planes(instrs)
    {
      bytes := [];
      for i := 0 to STATES
        invariant |bytes| == i
        invariant forall k :: 0 <= k < |bytes| ==> bytes[k] == TableByte(instrs, k)
      {
        bytes := bytes + [instrs[i].rec.branch];
      }
      for i := 0 to STATES
        invariant |bytes| == STATES + i
        invariant forall k :: 0 <= k < |bytes| ==> bytes[k] == TableByte(instrs, k)
      {
        bytes := bytes + [instrs[i].rec.opcode];
      }
      for i := 0 to STATES
        invariant |bytes| == 2 * STATES + i
        invariant forall k :: 0 <= k < |bytes| ==> bytes[k] == TableByte(instrs, k)
      {
        bytes := bytes + [instrs[i].rec.output];
      }
      for i := 0 to STATES
        invariant |bytes| == 3 * STATES + i
        invariant forall k :: 0 <= k < |bytes| ==> bytes[k] == TableByte(instrs, k)
      {
        bytes := bytes + [instrs[i].rec.logfunc];
      }
      PlanesLayout(instrs);
    }
  }

  /** The whole run on an assembler of its own, as the program's `main` does it. */
  method Run(stmts: seq<Statement>) returns (r: Result<Output, Fatal>)
    ensures r == Assemble(stmts)
  {
    var asm := new Assembler();
    for i := 0 to |stmts|
      invariant Collect(stmts[..i]).Success?
      invariant asm.environ == Collect(stmts[..i]).value.0
      invariant asm.instrs == PushedAll(Collect(stmts[..i]).value.1)
    {
      assert stmts[..i + 1][..i] == stmts[..i];
      var fatal := asm.Read(stmts[i]);
      if fatal.Some? {
        CollectStopsAtFatal(stmts, i + 1);
        return Failure(fatal.value);
      }
    }
    assert stmts[..|stmts|] == stmts;
    ghost var env, prog := Collect(stmts).value.0, Collect(stmts).value.1;
    asm.EncodeAll();
    assert asm.instrs == EncodeProgram(env, prog);
    var ok := asm.CountStates();
    if !ok {
      return Failure(TooManyStates);
    }
    var listing := asm.instrs;
    asm.Resize();
    var bytes := asm.Emit();
    r := Success(Output(asm.environ.waveform, listing, bytes));
  }
}
