/**
 * The assembler's environment (the `environ` map) and the checks a directive
 * `.XXX operand` must pass before it updates one entry of it.
 */
module Directives {
  import opened Wrappers
  import opened Decimal
  import opened Tables

  /** One value per directive; EP starts at 2, every other entry at 0. */
  datatype Env = Env(trictl: nat, cfg5: nat, cfg7: nat, flagSel: nat, ep: nat, waveform: nat)
  {
    /** The ranges the directive checks keep; they are what the table lookups need. */
    predicate Valid() {
      trictl <= 1 && cfg5 <= 1 && cfg7 <= 1 && flagSel <= 1
    }
  }

  const INITIAL_ENV: Env := Env(0, 0, 0, 0, 2, 0)

  /** Run-ending errors: a bad directive, or too many states. */
  datatype Fatal =
    | WrongOperandCount(op: PseudoOp)
    | InvalidOperand(op: PseudoOp, operand: string)
    | BadFlagSelect(op: PseudoOp)
    | TooManyStates

  /** `environ[op]` */
  function Entry(env: Env, op: PseudoOp): nat {
    match op
    case Trictl => env.trictl
    case GpifReadyCfg5 => env.cfg5
    case GpifReadyCfg7 => env.cfg7
    case EpxGpifFlgSel => env.flagSel
    case Ep => env.ep
    case WaveForm => env.waveform
  }

  /** `environ[op] = value`: that entry reads back as `value`, every other entry is unchanged. */
  function Store(env: Env, op: PseudoOp, value: nat): (r: Env)
    ensures Entry(r, op) == value
    ensures forall o :: o != op ==> Entry(r, o) == Entry(env, o)
  {
    match op
    case Trictl => env.(trictl := value)
    case GpifReadyCfg5 => env.(cfg5 := value)
    case GpifReadyCfg7 => env.(cfg7 := value)
    case EpxGpifFlgSel => env.(flagSel := value)
    case Ep => env.(ep := value)
    case WaveForm => env.(waveform := value)
  }

  /** What `.EPXGPIFFLGSEL` stores for a flag index: `!!index`, so EF and FF both give 1. */
  function StoredFlagSel(index: nat): (v: nat)
    ensures v <= 1 && (v == 0 <==> index == 0)
  {
    if index == 0 then 0 else 1
  }

  /** The operands each directive accepts, stated as a rule. */
  ghost predicate Acceptable(op: PseudoOp, s: string) {
    match op
    case EpxGpifFlgSel => s in FLG_SEL
    case WaveForm => AllDigits(s)
    case Ep => AllDigits(s) && Value(s) <= 8 && Value(s) % 2 == 0
    case _ => AllDigits(s) && Value(s) <= 1
  }

  /** The value a directive stores for an acceptable operand. */
  ghost function Stored(op: PseudoOp, s: string): nat
    requires Acceptable(op, s)
  {
    if op == EpxGpifFlgSel then StoredFlagSel(FLG_SEL[s]) else Value(s)
  }

  /** One directive statement: check its operand, then update the environment or fail. */
  function ApplyDirective(env: Env, op: PseudoOp, operands: seq<string>): (r: Result<Env, Fatal>)
    ensures r.Success? <==> |operands| == 1 && Acceptable(op, operands[0])
    ensures r.Success? ==> r.value == Store(env, op, Stored(op, operands[0]))
    ensures |operands| != 1 ==> r == Failure(WrongOperandCount(op))
    ensures |operands| == 1 && r.Failure? ==>
      r.error == if op == EpxGpifFlgSel then BadFlagSelect(op) else InvalidOperand(op, operands[0])
    ensures env.Valid() && r.Success? ==> r.value.Valid()
  {
    if |operands| != 1 then Failure(WrongOperandCount(op))
    else if op != EpxGpifFlgSel then
      var (value, rest) := ParseUnsigned(operands[0]);
      ParseUnsignedWhole(operands[0]);
      var fail :=
        if op != WaveForm then
          value > (if op != Ep then 1 else 8) || (op == Ep && value % 2 == 1)
        else false;
      if rest != [] || fail then Failure(InvalidOperand(op, operands[0]))
      else Success(Store(env, op, value))
    else
      match Lookup(FLG_SEL, operands[0])
      case None => Failure(BadFlagSelect(op))
      case Some(index) => Success(Store(env, op, StoredFlagSel(index)))
  }

  /** `.EP 0` is accepted, as the check only rejects values above 8 and odd values. */
  lemma EpZeroAccepted(env: Env)
    ensures ApplyDirective(env, Ep, ["0"]) == Success(env.(ep := 0))
  {
    assert AllDigits("0") && Value("0") == 0 by {
      assert "0"[..0] == [];
    }
  }

  /** A trailing non-digit makes a numeric directive fail. */
  lemma TrailingTextRejected(env: Env, op: PseudoOp, digits: string, tail: string)
    requires op != EpxGpifFlgSel
    requires AllDigits(digits) && tail != [] && !IsDigit(tail[0])
    ensures ApplyDirective(env, op, [digits + tail]) == Failure(InvalidOperand(op, digits + tail))
  {
    assert !IsDigit((digits + tail)[|digits|]);
  }

  /** After `.EPXGPIFFLGSEL FF` the operand table in use is the EF one: FF is not a legal operand, EF is. */
  lemma FlagSelectFFUsesEFTable(env: Env)
    requires env.Valid()
    ensures ApplyDirective(env, EpxGpifFlgSel, ["FF"]).Success?
    ensures var e := ApplyDirective(env, EpxGpifFlgSel, ["FF"]).value;
      "FF" !in OperTab(e.cfg5, e.flagSel, e.cfg7) && "EF" in OperTab(e.cfg5, e.flagSel, e.cfg7)
  {
  }
}
