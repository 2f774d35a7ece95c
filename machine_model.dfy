/**
 * The hypothetical accumulator machine as values: the instruction word
 * format, program loading, the micro-step transition (FETCH, DECODE,
 * EXECUTE, chosen by the step counter modulo 3), reset, and what runs of
 * several micro-steps do. The machine object in MachineEngine is proved
 * against these definitions.
 */
module MachineModel {
  import opened JsBitwise

  /** The machine has 16 memory cells. */
  const MemoryCells: int := 16

  /** One line of program text after trimming, upper-casing and splitting
      at the first space: blank, or a mnemonic with its operand (0 when the
      line has none). */
  datatype SourceLine = Blank | Instr(mnemonic: string, operand: int)

  /** An entry of the loaded program: mnemonic, operand, source line index. */
  datatype ProgramEntry = ProgramEntry(instruction: string, address: int, line: nat)

  datatype MachineState = MachineState(
    ac: int, pc: int, ir: int, mar: int, mbr: int,
    memory: seq<int>,
    program: seq<ProgramEntry>,
    running: bool,
    currentStep: nat)

  /** What an instruction word means, read with plain arithmetic: the
      opcode is bits 12 to 15, the address bits 0 to 11. */
  datatype Instruction = Load(address: int) | Store(address: int) | Add(address: int) | NoOp

  // ---------------------------------------------------------------------
  // Instruction words

  /** The mnemonic's opcode word, or 0 for an unrecognised mnemonic. */
  function OpcodeWord(mnemonic: string): int
  {
    if mnemonic == "LOAD" then 0x1000
    else if mnemonic == "STORE" then 0x2000
    else if mnemonic == "ADD" then 0x3000
    else 0
  }

  /** Encoding at load time: the opcode word OR-ed with the operand; an
      unrecognised mnemonic encodes to 0 whatever its operand. */
  function Encode(mnemonic: string, operand: int): int
  {
    if OpcodeWord(mnemonic) == 0 then 0 else BitOr(OpcodeWord(mnemonic), operand)
  }

  /** `(ir & 0xf000) >> 12`, as DECODE and EXECUTE compute it. */
  function Opcode(ir: int): (op: int)
    ensures 0 <= op < 16
  {
    DecodeFields(ir);
    ShiftRight(BitAnd(ir, 0xf000), 12)
  }

  /** `ir & 0x0fff`, as DECODE computes it. */
  function OperandAddress(ir: int): (a: int)
    ensures 0 <= a < 0x1000
  {
    DecodeFields(ir);
    BitAnd(ir, 0x0fff)
  }

  /** The reference reading of a word: bits 12 to 15 select the operation,
      bits 0 to 11 are the address; opcodes other than 1, 2, 3 do nothing. */
  function DecodeWord(w: int): Instruction
  {
    var op := (w / 0x1000) % 16;
    var a := w % 0x1000;
    if op == 1 then Load(a)
    else if op == 2 then Store(a)
    else if op == 3 then Add(a)
    else NoOp
  }

  /** The instruction a mnemonic and operand stand for. */
  function Meaning(mnemonic: string, operand: int): Instruction
  {
    if mnemonic == "LOAD" then Load(operand)
    else if mnemonic == "STORE" then Store(operand)
    else if mnemonic == "ADD" then Add(operand)
    else NoOp
  }

  /** The JavaScript mask-and-shift decoding is the arithmetic one, for
      every integer word. */
  lemma DecodeFields(ir: int)
    ensures ShiftRight(BitAnd(ir, 0xf000), 12) == (ir / 0x1000) % 16
    ensures BitAnd(ir, 0x0fff) == ir % 0x1000
  {
    HighNibble(ir);
    Pow2Values();
    LowBits(ir, 12);
  }

  /** The machine's decoding agrees with the reference reading. */
  lemma DecodeAgrees(ir: int)
    ensures Opcode(ir) == (ir / 0x1000) % 16 && OperandAddress(ir) == ir % 0x1000
    ensures var i := DecodeWord(ir);
      (i.Load? <==> Opcode(ir) == 1) && (i.Store? <==> Opcode(ir) == 2) &&
      (i.Add? <==> Opcode(ir) == 3) && (!i.NoOp? ==> i.address == OperandAddress(ir))
  {
    DecodeFields(ir);
  }

  /** Round trip: an operand that fits in 12 bits is decoded back, with the
      mnemonic's operation; an unrecognised mnemonic decodes as no-op. */
  lemma EncodeDecode(mnemonic: string, operand: int)
    requires 0 <= operand < 0x1000
    ensures DecodeWord(Encode(mnemonic, operand)) == Meaning(mnemonic, operand)
  {
    var code := OpcodeWord(mnemonic);
    if code != 0 {
      var h := code / 0x1000;
      Pow2Values();
      assert code == h * Pow2(12);
      OrInt(h, operand, 12);
      DivModUnique(code + operand, 0x1000, h, operand);
    }
  }

  // ---------------------------------------------------------------------
  // Loading a program

  /** The memory cells the instruction lines are written to. */
  function EncodeLine(l: SourceLine): int
  {
    match l
    case Blank => 0
    case Instr(m, a) => Encode(m, a)
  }

  /** Every instruction line lies at an index inside memory. */
  predicate FitsMemory(lines: seq<SourceLine>)
  {
    forall i :: 0 <= i < |lines| && lines[i].Instr? ==> i < MemoryCells
  }

  /** Memory after the parse loop and before the two seeded cells: cell i
      holds line i's encoding; blank lines and cells past the text hold 0. */
  function Cells(lines: seq<SourceLine>): (cells: seq<int>)
    ensures |cells| == MemoryCells
  {
    seq(MemoryCells, j requires 0 <= j < MemoryCells =>
      if j < |lines| then EncodeLine(lines[j]) else 0)
  }

  /** The program list built by the parse loop, one line at a time. */
  function Entries(lines: seq<SourceLine>): (es: seq<ProgramEntry>)
    ensures |es| <= |lines|
  {
    if |lines| == 0 then []
    else
      var n := |lines| - 1;
      match lines[n]
      case Blank => Entries(lines[..n])
      case Instr(m, a) => Entries(lines[..n]) + [ProgramEntry(m, a, n)]
  }

  /** The program lists each non-blank line once, in line order, carrying
      its own line index, mnemonic and operand; blank lines get no entry but
      still use up an index. */
  lemma {:induction false} EntriesLines(lines: seq<SourceLine>)
    ensures var es := Entries(lines);
      (forall k :: 0 <= k < |es| ==>
        es[k].line < |lines| && lines[es[k].line] == Instr(es[k].instruction, es[k].address)) &&
      (forall k, l :: 0 <= k < l < |es| ==> es[k].line < es[l].line) &&
      (forall i :: 0 <= i < |lines| && lines[i].Instr? ==> exists k :: 0 <= k < |es| && es[k].line == i)
  {
    if |lines| > 0 {
      var n := |lines| - 1;
      var front := Entries(lines[..n]);
      EntriesLines(lines[..n]);
      var es := Entries(lines);
      assert |es| >= |front| && forall k :: 0 <= k < |front| ==> es[k] == front[k];
      assert |es| > |front| ==> |es| == |front| + 1 && es[|front|] == ProgramEntry(lines[n].mnemonic, lines[n].operand, n);
      assert |es| == |front| <==> lines[n].Blank?;
      forall k | 0 <= k < |es|
        ensures es[k].line < |lines| && lines[es[k].line] == Instr(es[k].instruction, es[k].address)
      {
        if k < |front| {
          assert lines[..n][front[k].line] == lines[front[k].line];
        }
      }
      forall k, l | 0 <= k < l < |es|
        ensures es[k].line < es[l].line
      {
        assert es[k] == front[k];
      }
      forall i | 0 <= i < |lines| && lines[i].Instr?
        ensures exists k :: 0 <= k < |es| && es[k].line == i
      {
        if i == n {
          assert es[|front|].line == n;
        } else {
          assert lines[..n][i].Instr?;
          var k :| 0 <= k < |front| && front[k].line == i;
          assert es[k].line == i;
        }
      }
    }
  }

  /** Memory once the program is loaded: the encoded lines, then 5 and 3
      forced into cells 10 and 11. */
  function LoadedMemory(lines: seq<SourceLine>): (memory: seq<int>)
    ensures |memory| == MemoryCells
  {
    Cells(lines)[10 := 5][11 := 3]
  }

  /** `loadProgram`: registers cleared, running, at micro-step 0. */
  function LoadedState(lines: seq<SourceLine>): MachineState
  {
    MachineState(0, 0, 0, 0, 0, LoadedMemory(lines), Entries(lines), true, 0)
  }

  /** `resetMachine` and the initial state: everything cleared, stopped. */
  function ResetState(): MachineState
  {
    MachineState(0, 0, 0, 0, 0, seq(MemoryCells, _ => 0), [], false, 0)
  }

  /** The cells of a loaded program: each line's encoding at its own index,
      except cells 10 and 11 which hold 5 and 3, and 0 elsewhere. */
  lemma LoadedLayout(lines: seq<SourceLine>, j: int)
    requires 0 <= j < MemoryCells
    ensures LoadedMemory(lines)[j] ==
      if j == 10 then 5
      else if j == 11 then 3
      else if j < |lines| && lines[j].Instr? then Encode(lines[j].mnemonic, lines[j].operand)
      else 0
  {
  }

  /** Every loaded entry whose cell was not overwritten by the seeded data
      decodes, from memory, to its own mnemonic and operand. */
  lemma LoadedDecodes(lines: seq<SourceLine>, k: int)
    requires FitsMemory(lines)
    requires 0 <= k < |Entries(lines)|
    requires Entries(lines)[k].line != 10 && Entries(lines)[k].line != 11
    requires 0 <= Entries(lines)[k].address < 0x1000
    ensures var e := Entries(lines)[k];
      e.line < MemoryCells &&
      DecodeWord(LoadedState(lines).memory[e.line]) == Meaning(e.instruction, e.address)
  {
    EntriesLines(lines);
    var e := Entries(lines)[k];
    assert LoadedMemory(lines)[e.line] == Encode(e.instruction, e.address);
    EncodeDecode(e.instruction, e.address);
  }

  // ---------------------------------------------------------------------
  // Micro-steps

  /** Not stopped: running and the program counter inside the program. */
  predicate Active(s: MachineState)
  {
    s.running && s.pc < |s.program|
  }

  /** The memory cell a micro-step reads or writes is inside memory: FETCH
      reads cell MAR, and LOAD, STORE and ADD use cell MAR. */
  predicate Steppable(s: MachineState)
  {
    |s.memory| == MemoryCells &&
    (Active(s) && s.currentStep % 3 == 0 ==> 0 <= s.mar < MemoryCells) &&
    (Active(s) && s.currentStep % 3 == 2 && 1 <= Opcode(s.ir) <= 3 ==> 0 <= s.mar < MemoryCells)
  }

  /** FETCH: MAR gets PC, MBR gets the cell at the OLD MAR, IR gets the OLD
      MBR, PC moves on; every right-hand side reads the state before. */
  function Fetch(s: MachineState): MachineState
    requires 0 <= s.mar < |s.memory|
  {
    s.(mar := s.pc, mbr := s.memory[s.mar], ir := s.mbr, pc := s.pc + 1)
  }

  /** DECODE: MAR gets the address field of IR. */
  function Decode(s: MachineState): MachineState
  {
    s.(mar := OperandAddress(s.ir))
  }

  /** EXECUTE: on IR's opcode, LOAD, STORE, ADD through cell MAR; any other
      opcode changes nothing. */
  function Execute(s: MachineState): MachineState
    requires 1 <= Opcode(s.ir) <= 3 ==> 0 <= s.mar < |s.memory|
  {
    var op := Opcode(s.ir);
    if op == 1 then s.(mbr := s.memory[s.mar], ac := s.memory[s.mar])
    else if op == 2 then s.(mbr := s.ac, memory := s.memory[s.mar := s.ac])
    else if op == 3 then s.(mbr := s.memory[s.mar], ac := s.ac + s.memory[s.mar])
    else s
  }

  /** `stepMachine`: stopped machines only clear `running`; otherwise one
      micro-step chosen by currentStep % 3, and the counter goes up by one. */
  function Step(s: MachineState): (r: MachineState)
    requires Steppable(s)
    ensures |r.memory| == |s.memory| && r.program == s.program
    ensures !Active(s) ==> r == s.(running := false)
    ensures Active(s) ==> r.running && r.currentStep == s.currentStep + 1
    ensures forall j :: 0 <= j < |s.memory| && j != s.mar ==> r.memory[j] == s.memory[j]
    ensures r.memory != s.memory ==>
      Active(s) && s.currentStep % 3 == 2 && Opcode(s.ir) == 2 && r.memory == s.memory[s.mar := s.ac]
  {
    if !Active(s) then s.(running := false)
    else
      var phase := s.currentStep % 3;
      var t := if phase == 0 then Fetch(s) else if phase == 1 then Decode(s) else Execute(s);
      t.(currentStep := s.currentStep + 1)
  }

  /** n micro-steps; None when one of them would touch a cell outside memory. */
  function Run(s: MachineState, n: nat): Option<MachineState>
    decreases n
  {
    if n == 0 then Some(s)
    else if !Steppable(s) then None
    else Run(Step(s), n - 1)
  }

  datatype Option<T> = None | Some(value: T)

  /** The stop guard: a stopped machine, or one whose PC has left the
      program, only has `running` cleared, and stays that way. */
  lemma {:induction false} StaysStopped(s: MachineState, n: nat)
    requires |s.memory| == MemoryCells && !Active(s) && n > 0
    ensures Run(s, n) == Some(s.(running := false))
    decreases n
  {
    if n > 1 {
      StaysStopped(s.(running := false), n - 1);
    }
  }

  /** FETCH reads through the old MAR and hands the old MBR to IR, so the
      word it loads into IR is the one read by the previous FETCH, not the
      cell PC points at. */
  lemma FetchIsStale(s: MachineState)
    requires Steppable(s) && Active(s) && s.currentStep % 3 == 0
    ensures var r := Step(s);
      r.mar == s.pc && r.mbr == s.memory[s.mar] && r.ir == s.mbr && r.pc == s.pc + 1 &&
      r.ac == s.ac && r.memory == s.memory
  {
  }

  /** DECODE changes only MAR, to the low 12 bits of IR. */
  lemma DecodeOnlyMar(s: MachineState)
    requires Steppable(s) && Active(s) && s.currentStep % 3 == 1
    ensures Step(s) == s.(mar := s.ir % 0x1000, currentStep := s.currentStep + 1)
  {
    DecodeFields(s.ir);
  }

  /** EXECUTE of a LOAD word: AC and MBR get the cell at MAR. */
  lemma ExecuteLoad(s: MachineState)
    requires Steppable(s) && Active(s) && s.currentStep % 3 == 2 && Opcode(s.ir) == 1
    ensures Step(s) == s.(mbr := s.memory[s.mar], ac := s.memory[s.mar], currentStep := s.currentStep + 1)
  {
  }

  /** EXECUTE of a STORE word: MBR gets AC, and AC is written to the cell at MAR. */
  lemma ExecuteStore(s: MachineState)
    requires Steppable(s) && Active(s) && s.currentStep % 3 == 2 && Opcode(s.ir) == 2
    ensures Step(s) == s.(mbr := s.ac, memory := s.memory[s.mar := s.ac], currentStep := s.currentStep + 1)
  {
  }

  /** EXECUTE of an ADD word: MBR gets the cell at MAR, which is added to AC. */
  lemma ExecuteAdd(s: MachineState)
    requires Steppable(s) && Active(s) && s.currentStep % 3 == 2 && Opcode(s.ir) == 3
    ensures Step(s) == s.(mbr := s.memory[s.mar], ac := s.ac + s.memory[s.mar], currentStep := s.currentStep + 1)
  {
  }

  /** EXECUTE of any other word changes nothing but the step counter. */
  lemma ExecuteOther(s: MachineState)
    requires Steppable(s) && Active(s) && s.currentStep % 3 == 2 && !(1 <= Opcode(s.ir) <= 3)
    ensures Step(s) == s.(currentStep := s.currentStep + 1)
  {
  }

  /** The reference instruction cycle: IR takes the word that was in MBR,
      PC moves on by one, and that word's meaning is carried out at its
      address; for a word without meaning MBR gets the cell at the old MAR. */
  function AfterCycle(s: MachineState): MachineState
    requires |s.memory| == MemoryCells && 0 <= s.mar < MemoryCells
    requires !DecodeWord(s.mbr).NoOp? ==> DecodeWord(s.mbr).address < MemoryCells
  {
    var a := s.mbr % 0x1000;
    var t := s.(pc := s.pc + 1, ir := s.mbr, mar := a, currentStep := s.currentStep + 3);
    match DecodeWord(s.mbr)
    case Load(_) => t.(mbr := s.memory[a], ac := s.memory[a])
    case Store(_) => t.(mbr := s.ac, memory := s.memory[a := s.ac])
    case Add(_) => t.(mbr := s.memory[a], ac := s.ac + s.memory[a])
    case NoOp => t.(mbr := s.memory[s.mar])
  }

  /** Three micro-steps from a FETCH, with PC still inside the program after
      it, are one reference instruction cycle: the machine executes the word
      fetched by the previous cycle, not the cell PC pointed at. */
  lemma Cycle(s: MachineState)
    requires |s.memory| == MemoryCells && s.running && s.pc + 1 < |s.program|
    requires s.currentStep % 3 == 0 && 0 <= s.mar < MemoryCells
    requires !DecodeWord(s.mbr).NoOp? ==> DecodeWord(s.mbr).address < MemoryCells
    ensures Run(s, 3) == Some(AfterCycle(s))
  {
    var n := s.currentStep;
    Phases(n);
    var a := s.mbr % 0x1000;
    var s1 := s.(mar := s.pc, mbr := s.memory[s.mar], ir := s.mbr, pc := s.pc + 1, currentStep := n + 1);
    assert Step(s) == s1;
    var s2 := s1.(mar := a, currentStep := n + 2);
    assert Steppable(s1) && Active(s1) && s1.currentStep % 3 == 1;
    assert Step(s1) == s2 by {
      DecodeOnlyMar(s1);
    }
    assert Steppable(s2) && Active(s2) && s2.currentStep % 3 == 2 by {
      DecodeAgrees(s.mbr);
    }
    var s3 := Step(s2);
    assert s3 == AfterCycle(s) by {
      DecodeAgrees(s.mbr);
      var i := DecodeWord(s.mbr);
      if i.Load? {
        ExecuteLoad(s2);
      } else if i.Store? {
        ExecuteStore(s2);
      } else if i.Add? {
        ExecuteAdd(s2);
      } else {
        ExecuteOther(s2);
      }
    }
    assert Run(s2, 1) == Some(s3);
    assert Run(s, 3) == Run(s2, 1);
  }

  /** The phases of the three steps after a FETCH. */
  lemma Phases(n: nat)
    requires n % 3 == 0
    ensures (n + 1) % 3 == 1 && (n + 2) % 3 == 2
  {
    DivModUnique(n + 1, 3, n / 3, 1);
    DivModUnique(n + 2, 3, n / 3, 2);
  }

  /** Running a + b micro-steps is running a and then b. */
  lemma {:induction false} RunSplit(s: MachineState, a: nat, b: nat)
    ensures Run(s, a + b) == if Run(s, a).None? then None else Run(Run(s, a).value, b)
    decreases a
  {
    if a > 0 && Steppable(s) {
      RunSplit(Step(s), a - 1, b);
    }
  }

  /** The program the simulator starts with: LOAD 10, ADD 11, STORE 12, LOAD 12. */
  function DefaultProgram(): seq<SourceLine>
  {
    [Instr("LOAD", 10), Instr("ADD", 11), Instr("STORE", 12), Instr("LOAD", 12)]
  }

  /** Loading the default program: four entries, LOAD 10 encoded at cell
      0, the seeded 5 at cell 10, and cells 5 and 12 clear. */
  lemma DefaultLoaded(lines: seq<SourceLine>)
    requires lines == DefaultProgram()
    ensures var s := LoadedState(lines);
      s.ac == s.pc == s.ir == s.mar == s.mbr == 0 && s.running && s.currentStep == 0 &&
      |s.program| == 4 && |s.memory| == MemoryCells &&
      s.memory[0] == 0x100A && s.memory[5] == 0 && s.memory[10] == 5 && s.memory[12] == 0
  {
    DefaultEntries();
    assert Cells(lines)[0] == Encode("LOAD", 10);
    EncodeWord(0x1000, 10);
  }

  /** The default program has four entries. */
  lemma DefaultEntries()
    ensures |Entries(DefaultProgram())| == 4
  {
    var lines := DefaultProgram();
    assert |Entries(lines[..1])| == 1 by {
      assert lines[..1][..0] == [];
    }
    assert |Entries(lines[..2])| == 2 by {
      assert lines[..2][..1] == lines[..1];
    }
    assert |Entries(lines[..3])| == 3 by {
      assert lines[..3][..2] == lines[..2];
    }
    assert lines[..3] == lines[..|lines| - 1];
  }

  /** Twelve micro-steps of the default program. Because FETCH is stale the
      first cycle executes word 0, the second LOAD 10, the third the data
      word 5 (a no-op), and the fourth stops after its FETCH: AC ends at 5,
      cell 12 is never written, and the machine is stopped. */
  lemma DefaultProgramRun(lines: seq<SourceLine>)
    requires lines == DefaultProgram()
    ensures var s := LoadedState(lines);
      Run(s, 12) == Some(s.(ac := 5, pc := 4, ir := 5, mar := 3, mbr := 0, running := false, currentStep := 10))
    ensures LoadedState(lines).memory[12] == 0
  {
    DefaultLoaded(lines);
    WordsOfDefault();
    FromDefault(LoadedState(lines), 0x100A, 5);
  }

  /** The run of DefaultProgramRun, for any memory and program that agree
      with the loaded default program where the run looks: w is the word in
      cell 0 (LOAD 10) and v the data in cell 10, itself read as a no-op
      with address 5. */
  lemma FromDefault(s0: MachineState, w: int, v: int)
    requires s0.ac == s0.pc == s0.ir == s0.mar == s0.mbr == 0 && s0.running && s0.currentStep == 0
    requires |s0.memory| == MemoryCells && |s0.program| == 4
    requires s0.memory[0] == w && DecodeWord(w) == Load(10) && w % 0x1000 == 10
    requires s0.memory[10] == v && DecodeWord(v) == NoOp && v % 0x1000 == 5 && s0.memory[5] == 0
    requires DecodeWord(0) == NoOp
    ensures Run(s0, 12) == Some(MachineState(v, 4, v, 3, 0, s0.memory, s0.program, false, 10))
  {
    var mem, prog := s0.memory, s0.program;
    assert s0 == MachineState(0, 0, 0, 0, 0, mem, prog, true, 0);
    var s3 := MachineState(0, 1, 0, 0, w, mem, prog, true, 3);
    var s6 := MachineState(v, 2, w, 10, v, mem, prog, true, 6);
    var s9 := MachineState(v, 3, v, 5, v, mem, prog, true, 9);
    var s10 := MachineState(v, 4, v, 3, 0, mem, prog, true, 10);
    assert Run(s0, 3) == Some(s3) by {
      Cycle(s0);
    }
    assert Run(s3, 3) == Some(s6) by {
      Cycle(s3);
    }
    assert Run(s6, 3) == Some(s9) by {
      Cycle(s6);
    }
    assert Step(s9) == s10 by {
      FetchIsStale(s9);
    }
    StaysStopped(s10, 2);
    assert Run(s9, 3) == Some(s10.(running := false));
    RunSplit(s6, 3, 3);
    RunSplit(s3, 3, 6);
    RunSplit(s0, 3, 9);
  }

  /** The three words the default run decodes. */
  lemma WordsOfDefault()
    ensures DecodeWord(0) == NoOp && DecodeWord(0x100A) == Load(10) && DecodeWord(5) == NoOp
  {
    DivModUnique(0x100A, 0x1000, 1, 10);
    DivModUnique(5, 0x1000, 0, 5);
    DivModUnique(0, 0x1000, 0, 0);
  }

  /** `0x1000 | a` style words for a small operand: the sum. */
  lemma EncodeWord(code: int, a: int)
    requires code == 0x1000 || code == 0x2000 || code == 0x3000
    requires 0 <= a < 0x1000
    ensures BitOr(code, a) == code + a
  {
    Pow2Values();
    assert code == (code / 0x1000) * Pow2(12);
    OrInt(code / 0x1000, a, 12);
  }
}
