/**
 * The accumulator machine as the hook runs it: an object holding the five
 * registers, a 16-cell memory array that STORE writes in place, the loaded
 * program, the running flag and the micro-step counter. Each operation is
 * proved against the definitions in MachineModel through the State() view.
 */
module MachineEngine {
  import opened MachineModel

  /** The parse loop of `loadProgram`: every non-blank line is encoded into
      the cell of its own line index and appended to the program. */
  method Parse(lines: seq<SourceLine>) returns (cells: array<int>, entries: seq<ProgramEntry>)
    requires FitsMemory(lines)
    ensures fresh(cells) && cells[..] == Cells(lines) && entries == Entries(lines)
  {
    ghost var target := Cells(lines);
    cells := new int[MemoryCells](_ => 0);
    entries := [];
    for i := 0 to |lines|
      invariant cells.Length == MemoryCells
      invariant forall j :: 0 <= j < MemoryCells ==> cells[j] == if j < i then target[j] else 0
      invariant entries == Entries(lines[..i])
    {
      assert Entries(lines[..i + 1]) == Entries(lines[..i]) + match lines[i]
        case Blank => []
        case Instr(m, a) => [ProgramEntry(m, a, i)]
      by {
        assert lines[..i + 1][..i] == lines[..i];
      }
      assert i < MemoryCells ==> target[i] == EncodeLine(lines[i]);
      if lines[i].Instr? {
        cells[i] := EncodeLine(lines[i]);
        entries := entries + [ProgramEntry(lines[i].mnemonic, lines[i].operand, i)];
      }
    }
    assert lines[..|lines|] == lines;
    assert forall j :: |lines| <= j < MemoryCells ==> target[j] == 0;
    assert cells[..] == target;
  }

  class Machine {
    var ac: int
    var pc: int
    var ir: int
    var mar: int
    var mbr: int
    var memory: array<int>
    var program: seq<ProgramEntry>
    var running: bool
    var currentStep: nat

    /** The machine's fields as a MachineState value. */
    ghost function State(): MachineState
      reads this, memory
    {
      MachineState(ac, pc, ir, mar, mbr, memory[..], program, running, currentStep)
    }

    /** The hook's initial state: everything cleared, stopped. */
    constructor()
      ensures State() == ResetState()
    {
      ac, pc, ir, mar, mbr := 0, 0, 0, 0, 0;
      memory := new int[MemoryCells](_ => 0);
      program := [];
      running := false;
      currentStep := 0;
    }

    /** `loadProgram`: a fresh memory holding the parsed lines, cells 10
        and 11 then seeded with 5 and 3; registers cleared, running. */
    method LoadProgram(lines: seq<SourceLine>)
      requires FitsMemory(lines)
      modifies this
      ensures State() == LoadedState(lines) && fresh(memory)
    {
      var cells, entries := Parse(lines);
      ghost var parsed := cells[..];
      cells[10] := 5;
      cells[11] := 3;
      ac, pc, ir, mar, mbr := 0, 0, 0, 0, 0;
      memory := cells;
      program := entries;
      running := true;
      currentStep := 0;
      assert memory[..] == parsed[10 := 5][11 := 3];
    }

    /** `stepMachine`: one micro-step, STORE writing the memory array in
        place. */
    method StepMachine()
      requires memory.Length == MemoryCells && Steppable(State())
      modifies this, memory
      ensures memory == old(memory)
      ensures State() == Step(old(State()))
    {
      if !running || pc >= |program| {
        running := false;
        return;
      }
      var phase := currentStep % 3;
      if phase == 0 {
        mar, mbr, ir, pc := pc, memory[mar], mbr, pc + 1;
      } else if phase == 1 {
        mar := OperandAddress(ir);
      } else {
        var opcode := Opcode(ir);
        if opcode == 1 {
          mbr := memory[mar];
          ac := mbr;
        } else if opcode == 2 {
          mbr := ac;
          memory[mar] := mbr;
        } else if opcode == 3 {
          mbr := memory[mar];
          ac := ac + mbr;
        }
      }
      currentStep := currentStep + 1;
    }

    /** `resetMachine`: back to the initial state, with a fresh memory. */
    method ResetMachine()
      modifies this
      ensures State() == ResetState() && fresh(memory)
    {
      ac, pc, ir, mar, mbr := 0, 0, 0, 0, 0;
      memory := new int[MemoryCells](_ => 0);
      program := [];
      running := false;
      currentStep := 0;
    }
  }
}
