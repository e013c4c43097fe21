/** The generator as it runs: a builder object whose words, expected writes, registers and memory are
    updated in place, driven by one loop over the seeds and one over the draws. */
module Building {
  import opened Words
  import opened Generator
  import opened Predicted
  import A = Assembler

  class Builder {
    var words: seq<Word>
    var expectedWrites: seq<Write>
    var registers: RegFile
    var memory: map<nat, Word>

    function View(): Program
      reads this
    {
      Program(words, expectedWrites, registers, memory)
    }

    constructor ()
      ensures View() == Empty()
    {
      words, expectedWrites, registers, memory := [], [], Zeros(), map[];
    }

    method Write(instruction: Word, rd: Reg, value: int)
      modifies this
      ensures View() == Emit(old(View()), instruction, rd, value)
    {
      hide Wrap;
      words := words + [instruction];
      if rd != 0 {
        registers := registers[rd := Wrap(value)];
        expectedWrites := expectedWrites + [Generator.Write(4 * |words| - 4, rd, Wrap(value))];
      }
      registers := registers[0 := 0];
    }

    method Store(instruction: Word, address: nat, value: Word)
      modifies this
      ensures View() == EmitStore(old(View()), instruction, address, value)
    {
      words := words + [instruction];
      memory := memory[address := value];
    }

    /** One drawn instruction and its prediction. */
    method Draw(d: Draw)
      requires Drawable(d)
      modifies this
      ensures View() == Drawn(old(View()), d)
    {
      hide A.Assemble, RegisterValue, ImmediateValue, Emit;
      DrawAssembles(d);
      match d {
        case Registers(m, rd, rs1, rs2) =>
          Write(A.Assemble(m, rd, rs1, rs2, 0).value, rd, RegisterValue(m, registers[rs1], registers[rs2]));
        case Immediates(m, rd, rs1, imm) =>
          Write(A.Assemble(m, rd, rs1, 0, imm).value, rd, ImmediateValue(m, registers[rs1], imm));
        case LoadSlot(rd, slot) =>
          Write(A.Assemble(A.Lw, rd, 31, 0, 4 * slot).value, rd,
                if Address(slot) in memory then memory[Address(slot)] else 0);
        case StoreSlot(rs2, slot) =>
          Store(A.Assemble(A.Sw, 0, 31, rs2, 4 * slot).value, Address(slot), registers[rs2]);
      }
    }
  }

  lemma DrawAssembles(d: Draw)
    requires Drawable(d)
    ensures match d
      case Registers(m, rd, rs1, rs2) => A.Assemble(m, rd, rs1, rs2, 0).Some?
      case Immediates(m, rd, rs1, imm) => A.Assemble(m, rd, rs1, 0, imm).Some?
      case LoadSlot(rd, slot) => A.Assemble(A.Lw, rd, 31, 0, 4 * slot).Some?
      case StoreSlot(rs2, slot) => A.Assemble(A.Sw, 0, 31, rs2, 4 * slot).Some?
  {
    hide A.F3, A.F7;
  }

  /** The loops of the generator, given the values and draws its random source supplies. */
  method Generate(values: seq<Word>, draws: seq<Draw>) returns (p: Program)
    requires |values| == 12 && forall d <- draws :: Drawable(d)
    ensures p == Generated(values, draws)
  {
    hide A.Assemble, Emit, Drawn, Upper, Lower, Drawable, SeedHigh, SeedLow;
    var builder := new Builder();
    FirstWord();
    builder.Write(A.Assemble(A.Addi, 31, 0, 0, BASE).value, 31, BASE);
    for rd := 1 to 13
      invariant builder.View() == Seeds(values, rd - 1)
    {
      var value := values[rd - 1];
      builder.Write(SeedHigh(rd, value), rd, Upper(value) * 0x1000);
      builder.Write(SeedLow(rd, value), rd, value);
    }
    for k := 0 to |draws|
      invariant builder.View() == Body(values, draws[..k])
    {
      assert draws[..k + 1][..k] == draws[..k];
      builder.Draw(draws[k]);
    }
    assert draws[..|draws|] == draws;
    ImmediateWord(A.Addi, 30, 0, 0x55A);
    LoopWord();
    builder.Write(A.Assemble(A.Addi, 30, 0, 0, 0x55A).value, 30, 0x55A);
    p := builder.View().(words := builder.words + [A.Assemble(A.Jal, 0, 0, 0, 0).value]);
  }
}
