/**
 * The assembler's constant name tables: the directive names, the flag-select
 * operands, the output-pin table keyed by TRICTL, the logic functions, and the
 * operand table keyed by (GPIFREADYCFG.5, EPxGPIFFLGSEL, GPIFREADYCFG.7).
 */
module Tables {

  datatype PseudoOp = Trictl | GpifReadyCfg5 | GpifReadyCfg7 | EpxGpifFlgSel | Ep | WaveForm

  /** pseudotab: the six directive names. */
  const PSEUDO_TAB: map<string, PseudoOp> := map[
    ".TRICTL" := Trictl,
    ".GPIFREADYCFG5" := GpifReadyCfg5,
    ".GPIFREADYCFG7" := GpifReadyCfg7,
    ".EPXGPIFFLGSEL" := EpxGpifFlgSel,
    ".EP" := Ep,
    ".WAVEFORM" := WaveForm
  ]

  /** flgsel: operands of `.EPXGPIFFLGSEL`. */
  const FLG_SEL: map<string, nat> := map["PF" := 0, "EF" := 1, "FF" := 2]

  /** functab: the logic function between terms A and B. */
  const FUNC_TAB: map<string, nat> := map["AND" := 0, "OR" := 1, "XOR" := 2, "/AND" := 3]

  /** The six directive names, each naming its own directive. */
  lemma DirectiveNames(n: string)
    ensures n in PSEUDO_TAB <==> n in {".TRICTL", ".GPIFREADYCFG5", ".GPIFREADYCFG7", ".EPXGPIFFLGSEL", ".EP", ".WAVEFORM"}
    ensures PSEUDO_TAB[".TRICTL"] == Trictl && PSEUDO_TAB[".GPIFREADYCFG5"] == GpifReadyCfg5
      && PSEUDO_TAB[".GPIFREADYCFG7"] == GpifReadyCfg7 && PSEUDO_TAB[".EPXGPIFFLGSEL"] == EpxGpifFlgSel
      && PSEUDO_TAB[".EP"] == Ep && PSEUDO_TAB[".WAVEFORM"] == WaveForm
    ensures forall x, y :: x in PSEUDO_TAB && y in PSEUDO_TAB && x != y ==> PSEUDO_TAB[x] != PSEUDO_TAB[y]
  {
  }

  /** PF, EF and FF are the flag indices 0, 1 and 2; no other operand is accepted. */
  lemma FlagSelectNames(n: string)
    ensures n in FLG_SEL <==> n in {"PF", "EF", "FF"}
    ensures FLG_SEL["PF"] == 0 && FLG_SEL["EF"] == 1 && FLG_SEL["FF"] == 2
  {
  }

  /** AND, OR, XOR and /AND are the codes 0..3, which fill the two-bit lfunc field, one code each. */
  lemma FunctionNames(n: string)
    ensures n in FUNC_TAB <==> n in {"AND", "OR", "XOR", "/AND"}
    ensures FUNC_TAB["AND"] == 0 && FUNC_TAB["OR"] == 1 && FUNC_TAB["XOR"] == 2 && FUNC_TAB["/AND"] == 3
    ensures forall x :: x in FUNC_TAB ==> FUNC_TAB[x] < 4
    ensures forall x, y :: x in FUNC_TAB && y in FUNC_TAB && x != y ==> FUNC_TAB[x] != FUNC_TAB[y]
  {
  }

  /** oetab: output pin name to bit of the output byte, keyed by TRICTL. */
  function OeTab(trictl: nat): (m: map<string, nat>)
    requires trictl <= 1
    ensures forall n :: n in m ==> m[n] < 8
  {
    if trictl == 0 then
      map["CTL5" := 5, "CTL4" := 4, "CTL3" := 3, "CTL2" := 2, "CTL1" := 1, "CTL0" := 0]
    else
      map["OE3" := 7, "OE2" := 6, "OE1" := 5, "OE0" := 4,
          "CTL3" := 3, "CTL2" := 2, "CTL1" := 1, "CTL0" := 0]
  }

  /** opertab: the names a decision point may test as term A or B, with their 3-bit codes. */
  function OperTab(cfg5: nat, flagSel: nat, cfg7: nat): (m: map<string, nat>)
    requires cfg5 <= 1 && flagSel <= 2 && cfg7 <= 1
    ensures forall n :: n in m ==> m[n] < 8
  {
    if cfg5 == 0 then
      if flagSel == 0 then
        if cfg7 == 0 then
          map["RDY0" := 0, "RDY1" := 1, "RDY2" := 2, "RDY3" := 3, "RDY4" := 4, "RDY5" := 5, "PF" := 6]
        else
          map["RDY0" := 0, "RDY1" := 1, "RDY2" := 2, "RDY3" := 3, "RDY4" := 4, "RDY5" := 5, "PF" := 6]
      else if flagSel == 1 then
        if cfg7 == 0 then
          map["RDY0" := 0, "RDY1" := 1, "RDY2" := 2, "RDY3" := 3, "RDY4" := 4, "RDY5" := 5, "EF" := 6]
        else
          map["RDY0" := 0, "RDY1" := 1, "RDY2" := 2, "RDY3" := 3, "RDY4" := 4, "RDY5" := 5, "EF" := 6,
              "INTRDY" := 7]
      else
        if cfg7 == 0 then
          map["RDY0" := 0, "RDY1" := 1, "RDY2" := 2, "RDY3" := 3, "RDY4" := 4, "RDY5" := 5, "FF" := 6]
        else
          map["RDY0" := 0, "RDY1" := 1, "RDY2" := 2, "RDY3" := 3, "RDY4" := 4, "RDY5" := 5, "FF" := 6,
              "INTRDY" := 7]
    else
      if flagSel == 0 then
        if cfg7 == 0 then
          map["RDY0" := 0, "RDY1" := 1, "RDY2" := 2, "RDY3" := 3, "RDY4" := 4, "TC" := 5, "PF" := 6]
        else
          map["RDY0" := 0, "RDY1" := 1, "RDY2" := 2, "RDY3" := 3, "RDY4" := 4, "TC" := 5, "PF" := 6]
      else if flagSel == 1 then
        if cfg7 == 0 then
          map["RDY0" := 0, "RDY1" := 1, "RDY2" := 2, "RDY3" := 3, "RDY4" := 4, "TC" := 5, "EF" := 6]
        else
          map["RDY0" := 0, "RDY1" := 1, "RDY2" := 2, "RDY3" := 3, "RDY4" := 4, "TC" := 5, "EF" := 6,
              "INTRDY" := 7]
      else
        if cfg7 == 0 then
          map["RDY0" := 0, "RDY1" := 1, "RDY2" := 2, "RDY3" := 3, "RDY4" := 4, "TC" := 5, "FF" := 6]
        else
          map["RDY0" := 0, "RDY1" := 1, "RDY2" := 2, "RDY3" := 3, "RDY4" := 4, "TC" := 5, "FF" := 6,
              "INTRDY" := 7]
  }

  /** The flag name that EPxGPIFFLGSEL value `flagSel` selects. */
  function FlagName(flagSel: nat): string
    requires flagSel <= 2
  {
    if flagSel == 0 then "PF" else if flagSel == 1 then "EF" else "FF"
  }

  /** Which names the operand table holds in a configuration, stated rule by rule. */
  ghost predicate OperandNamed(cfg5: nat, flagSel: nat, cfg7: nat, n: string)
    requires flagSel <= 2
  {
    || n in {"RDY0", "RDY1", "RDY2", "RDY3", "RDY4"}
    || (n == "RDY5" && cfg5 == 0)
    || (n == "TC" && cfg5 == 1)
    || n == FlagName(flagSel)
    || (n == "INTRDY" && flagSel != 0 && cfg7 == 1)
  }

  /** In every configuration RDY0..RDY4 are codes 0..4 and the name of code 5 follows GPIFREADYCFG.5. */
  lemma OperandReadyCodes(cfg5: nat, flagSel: nat, cfg7: nat)
    requires cfg5 <= 1 && flagSel <= 2 && cfg7 <= 1
    ensures var m := OperTab(cfg5, flagSel, cfg7);
      && "RDY0" in m && m["RDY0"] == 0 && "RDY1" in m && m["RDY1"] == 1
      && "RDY2" in m && m["RDY2"] == 2 && "RDY3" in m && m["RDY3"] == 3
      && "RDY4" in m && m["RDY4"] == 4
      && ("RDY5" in m <==> cfg5 == 0) && ("TC" in m <==> cfg5 == 1)
      && ("RDY5" in m ==> m["RDY5"] == 5) && ("TC" in m ==> m["TC"] == 5)
  {
  }

  /** The selected flag, and only it, is code 6; INTRDY (code 7) exists only for EF/FF with GPIFREADYCFG.7 set. */
  lemma OperandFlagCodes(cfg5: nat, flagSel: nat, cfg7: nat)
    requires cfg5 <= 1 && flagSel <= 2 && cfg7 <= 1
    ensures var m := OperTab(cfg5, flagSel, cfg7);
      && FlagName(flagSel) in m && m[FlagName(flagSel)] == 6
      && (forall f :: f in FLG_SEL && f != FlagName(flagSel) ==> f !in m)
      && ("INTRDY" in m <==> flagSel != 0 && cfg7 == 1)
      && ("INTRDY" in m ==> m["INTRDY"] == 7)
  {
  }

  /** The operand table holds exactly the names of the rules above, no others. */
  lemma OperandTableNames(cfg5: nat, flagSel: nat, cfg7: nat, n: string)
    requires cfg5 <= 1 && flagSel <= 2 && cfg7 <= 1
    ensures n in OperTab(cfg5, flagSel, cfg7) <==> OperandNamed(cfg5, flagSel, cfg7, n)
  {
  }

  /** Within one configuration no two names share a code. */
  lemma OperandCodesDistinct(cfg5: nat, flagSel: nat, cfg7: nat, x: string, y: string)
    requires cfg5 <= 1 && flagSel <= 2 && cfg7 <= 1
    requires x in OperTab(cfg5, flagSel, cfg7) && y in OperTab(cfg5, flagSel, cfg7) && x != y
    ensures OperTab(cfg5, flagSel, cfg7)[x] != OperTab(cfg5, flagSel, cfg7)[y]
  {
  }

  /** CTL0..CTL3 are bits 0..3 under both TRICTL values; CTL4/CTL5 exist only with TRICTL=0, OE0..OE3 only with TRICTL=1. */
  lemma OutputPinNames(trictl: nat, n: string)
    requires trictl <= 1
    ensures var m := OeTab(trictl);
      && (n in {"CTL0", "CTL1", "CTL2", "CTL3"} ==> n in m && m[n] == (n[3] - '0') as nat)
      && (n in {"CTL4", "CTL5"} ==> (n in m <==> trictl == 0))
      && (n in {"CTL4", "CTL5"} && n in m ==> m[n] == (n[3] - '0') as nat)
      && (n in {"OE0", "OE1", "OE2", "OE3"} ==> (n in m <==> trictl == 1))
      && (n in {"OE0", "OE1", "OE2", "OE3"} && n in m ==> m[n] == 4 + (n[2] - '0') as nat)
      && (n in m ==> n in {"CTL0", "CTL1", "CTL2", "CTL3", "CTL4", "CTL5", "OE0", "OE1", "OE2", "OE3"})
  {
  }

  /** Within one TRICTL value no two pin names share a bit. */
  lemma OutputPinsDistinct(trictl: nat, x: string, y: string)
    requires trictl <= 1
    requires x in OeTab(trictl) && y in OeTab(trictl) && x != y
    ensures OeTab(trictl)[x] != OeTab(trictl)[y]
  {
  }
}
