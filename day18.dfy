/** The sound program of day 18, part 1 (`day-18/src/main.rs`): the
    instructions run one after another from a program counter, `snd` keeps
    the last sound played, and the first `rcv` whose register is not 0
    recovers that sound.

    The loop of `find_first_recovered` need not end; the model runs it for
    at most `fuel` instructions.  A program counter outside the program and
    a `mod` by 0 panic in the source and give `Panicked` here.
 */
module Day18 {
  import opened Wrappers
  import opened Day18Instructions

  /** Rust's `%` on `i64`: the remainder of the division truncated toward
      zero, which takes the sign of the dividend. */
  function Rem(a: int, b: int): (r: int)
    requires b != 0
    ensures a >= 0 ==> 0 <= r < Abs(b)
    ensures a < 0 ==> -Abs(b) < r <= 0
  {
    if a >= 0 then a % Abs(b) else -((-a) % Abs(b))
  }

  function Abs(x: int): int { if x >= 0 then x else -x }

  /** Rust's `/` on `i64`: the quotient truncated toward zero. */
  function Quot(a: int, b: int): int
    requires b != 0
  {
    var q := Abs(a) / Abs(b);
    if (a >= 0) == (b > 0) then q else -q
  }

  /** The truncated quotient and remainder put the dividend back together. */
  lemma QuotRem(a: int, b: int)
    requires b != 0
    ensures a == b * Quot(a, b) + Rem(a, b)
  {
    var m := Abs(b);
    var q := Abs(a) / m;
    var p := m * q;
    assert Abs(a) == p + Abs(a) % m;
    if a >= 0 && b > 0 {
    } else if a >= 0 {
      NegMul(m, q);
      assert b * -q == p;
    } else if b > 0 {
      NegMul(m, q);
      assert b * -q == -p;
    } else {
      NegMul(m, q);
      assert b * q == -p;
    }
  }

  lemma NegMul(x: int, y: int)
    ensures (-x) * -y == x * y && x * -y == -(x * y) && (-x) * y == -(x * y)
  {
  }

  /** The closures `update_register` is called with. */
  datatype Arith = SetTo | Plus | Times | Modulo

  /** The value each closure computes from the register and the operand;
      `None` for the panic of `%` by 0. */
  function Combine(f: Arith, r: int, v: int): (res: Option<int>)
    ensures res.None? <==> f == Modulo && v == 0
  {
    match f
    case SetTo => Some(v)
    case Plus => Some(r + v)
    case Times => Some(r * v)
    case Modulo => if v == 0 then None else Some(Rem(r, v))
  }

  /** `update_register`: the register set to the closure of its old value
      (0 when absent) and the operand; `None` where the closure panics. */
  function UpdateRegister(registers: Registers, register: char, value: Value, f: Arith): (r: Option<Registers>)
    ensures r.None? <==> Combine(f, GetRegister(register, registers), Get(value, registers)).None?
    ensures r.Some? ==> register in r.value
    ensures r.Some? ==>
      Some(r.value[register]) == Combine(f, GetRegister(register, registers), Get(value, registers))
    ensures r.Some? ==> forall k :: k != register ==> (k in r.value <==> k in registers)
    ensures r.Some? ==> forall k :: k != register && k in registers ==> r.value[k] == registers[k]
  {
    var v := Combine(f, GetRegister(register, registers), Get(value, registers));
    if v.None? then None else Some(registers[register := v.value])
  }

  /** The loop state of `find_first_recovered`. */
  datatype Machine = Machine(pc: int, lastPlayed: int, registers: Registers)

  const Start: Machine := Machine(0, 0, map[])

  /** The result of one instruction: the next state, the recovered sound
      (`break`), or a panic. */
  datatype StepResult = Next(m: Machine) | Halt(sound: int) | Crash

  /** One pass of the loop: the instruction at the program counter. */
  function Exec(program: seq<Instruction>, m: Machine): (r: StepResult)
    ensures !(0 <= m.pc < |program|) ==> r == Crash
    ensures r.Halt? ==> 0 <= m.pc < |program| && program[m.pc].Receive? && r.sound == m.lastPlayed
    ensures r.Next? ==> 0 <= m.pc < |program| && !program[m.pc].Jump? ==> r.m.pc == m.pc + 1
    ensures r.Next? && program[m.pc].Send? ==>
      r.m.lastPlayed == Get(program[m.pc].x, m.registers) && r.m.registers == m.registers
    ensures r.Next? && !program[m.pc].Send? ==> r.m.lastPlayed == m.lastPlayed
  {
    if !(0 <= m.pc < |program|) then Crash
    else
      var regs := m.registers;
      match program[m.pc]
      case Send(x) => Next(Machine(m.pc + 1, Get(x, regs), regs))
      case Receive(reg) =>
        if GetRegister(reg, regs) != 0 then Halt(m.lastPlayed) else Next(Machine(m.pc + 1, m.lastPlayed, regs))
      case Set(reg, v) => Updated(m, reg, v, SetTo)
      case Add(reg, v) => Updated(m, reg, v, Plus)
      case Multiply(reg, v) => Updated(m, reg, v, Times)
      case Modulus(reg, v) => Updated(m, reg, v, Modulo)
      case Jump(x, y) =>
        var pc := if Get(x, regs) > 0 then m.pc + Get(y, regs) - 1 else m.pc;
        Next(Machine(pc + 1, m.lastPlayed, regs))
  }

  /** An arithmetic instruction: the register updated, the next instruction. */
  function Updated(m: Machine, reg: char, v: Value, f: Arith): (r: StepResult)
    ensures r.Crash? || (r.Next? && r.m.pc == m.pc + 1 && r.m.lastPlayed == m.lastPlayed)
  {
    var regs := UpdateRegister(m.registers, reg, v, f);
    if regs.None? then Crash else Next(Machine(m.pc + 1, m.lastPlayed, regs.value))
  }

  /** How a run ends. */
  datatype Outcome = Recovered(sound: int) | Panicked | OutOfFuel

  /** The loop of `find_first_recovered`, at most `fuel` instructions. */
  function Run(program: seq<Instruction>, m: Machine, fuel: nat): Outcome
    decreases fuel
  {
    if fuel == 0 then OutOfFuel
    else
      match Exec(program, m)
      case Next(m') => Run(program, m', fuel - 1)
      case Halt(sound) => Recovered(sound)
      case Crash => Panicked
  }

  /** `find_first_recovered`: the program counter, the last sound and the
      registers updated in place until a `rcv` recovers a sound. */
  method FindFirstRecovered(program: seq<Instruction>, fuel: nat) returns (r: Outcome)
    ensures r == Run(program, Start, fuel)
  {
    var programCounter := 0;
    var lastPlayed := 0;
    var registers: Registers := map[];
    var steps := 0;
    while steps < fuel
      invariant steps <= fuel
      invariant Run(program, Start, fuel) == Run(program, Machine(programCounter, lastPlayed, registers), fuel - steps)
    {
      if !(0 <= programCounter < |program|) {
        return Panicked;
      }
      var instruction := program[programCounter];
      match instruction {
        case Send(value) =>
          lastPlayed := Get(value, registers);
        case Receive(register) =>
          if GetRegister(register, registers) != 0 {
            return Recovered(lastPlayed);
          }
        case Set(register, value) =>
          var next := UpdateRegister(registers, register, value, SetTo);
          registers := next.value;
        case Add(register, value) =>
          var next := UpdateRegister(registers, register, value, Plus);
          registers := next.value;
        case Multiply(register, value) =>
          var next := UpdateRegister(registers, register, value, Times);
          registers := next.value;
        case Modulus(register, value) =>
          var next := UpdateRegister(registers, register, value, Modulo);
          if next.None? {
            return Panicked;
          }
          registers := next.value;
        case Jump(x, y) =>
          if Get(x, registers) > 0 {
            programCounter := programCounter + Get(y, registers) - 1;
          }
      }
      programCounter := programCounter + 1;
      steps := steps + 1;
    }
    r := OutOfFuel;
  }

  /** More fuel does not change a run that ended without running out. */
  lemma {:induction false} RunMoreFuel(program: seq<Instruction>, m: Machine, fuel: nat, more: nat)
    requires Run(program, m, fuel) != OutOfFuel && fuel <= more
    ensures Run(program, m, more) == Run(program, m, fuel)
    decreases fuel
  {
    match Exec(program, m)
    case Next(m') => RunMoreFuel(program, m', fuel - 1, more - 1);
    case Halt(_) =>
    case Crash =>
  }

  /** One instruction that continues: the run goes on from the next state. */
  lemma RunNext(program: seq<Instruction>, m: Machine, m': Machine, fuel: nat)
    requires Exec(program, m) == Next(m')
    ensures Run(program, m, fuel + 1) == Run(program, m', fuel)
  {
  }

  /** The sample program of the puzzle. */
  const Sample: seq<Instruction> := [
    Set('a', Number(1)),
    Add('a', Number(2)),
    Multiply('a', Register('a')),
    Modulus('a', Number(5)),
    Send(Register('a')),
    Set('a', Number(0)),
    Receive('a'),
    Jump(Register('a'), Number(-1)),
    Set('a', Number(1)),
    Jump(Register('a'), Number(-2))
  ]

  /** The states of the sample run, before each instruction. */
  function SampleState(i: nat): Machine
    requires i < 12
  {
    [Machine(0, 0, map[]), Machine(1, 0, map['a' := 1]), Machine(2, 0, map['a' := 3]),
     Machine(3, 0, map['a' := 9]), Machine(4, 0, map['a' := 4]), Machine(5, 4, map['a' := 4]),
     Machine(6, 4, map['a' := 0]), Machine(7, 4, map['a' := 0]), Machine(8, 4, map['a' := 0]),
     Machine(9, 4, map['a' := 1]), Machine(7, 4, map['a' := 1]), Machine(6, 4, map['a' := 1])][i]
  }

  lemma SampleExec(i: nat)
    requires i < 11
    ensures Exec(Sample, SampleState(i)) == Next(SampleState(i + 1))
  {
    var m := SampleState(i);
    var m' := SampleState(i + 1);
    if i == 0 {
      assert m.registers['a' := 1] == m'.registers;
    } else if i == 1 {
      assert m.registers['a' := 3] == m'.registers;
    } else if i == 2 {
      assert m.registers['a' := 9] == m'.registers;
    } else if i == 3 {
      assert m.registers['a' := 4] == m'.registers;
    } else if i == 5 {
      assert m.registers['a' := 0] == m'.registers;
    } else if i == 8 {
      assert m.registers['a' := 1] == m'.registers;
    }
  }

  /** A run through `states`, each the next state of the one before and
      the last one recovering `sound`: from state `i` the sound is
      recovered within the instructions left. */
  lemma {:induction false} RunThrough(program: seq<Instruction>, states: seq<Machine>, sound: int, i: nat)
    requires i < |states|
    requires forall j :: 0 <= j < |states| - 1 ==> Exec(program, states[j]) == Next(states[j + 1])
    requires Exec(program, states[|states| - 1]) == Halt(sound)
    ensures Run(program, states[i], |states| - i) == Recovered(sound)
    decreases |states| - i
  {
    if i < |states| - 1 {
      RunThrough(program, states, sound, i + 1);
      RunNext(program, states[i], states[i + 1], |states| - i - 1);
    }
  }

  /** The states of the sample run as a sequence. */
  function SampleStates(): (r: seq<Machine>)
    ensures |r| == 12 && forall i :: 0 <= i < 12 ==> r[i] == SampleState(i)
  {
    seq(12, i requires 0 <= i < 12 => SampleState(i))
  }

  /** The last instruction of the sample run recovers 4. */
  lemma SampleLast()
    ensures Exec(Sample, SampleState(11)) == Halt(4)
  {
  }

  lemma SampleFromStart()
    ensures Run(Sample, Start, 12) == Recovered(4)
  {
    var states := SampleStates();
    forall j | 0 <= j < |states| - 1
      ensures Exec(Sample, states[j]) == Next(states[j + 1])
    {
      SampleExec(j);
    }
    SampleLast();
    RunThrough(Sample, states, 4, 0);
    assert states[0] == Start;
  }

  /** The sample recovers 4 on its twelfth instruction: `rcv a` first sees
      `a == 0`, and after the two jumps back it sees 1. */
  lemma SampleRecovers(fuel: nat)
    requires fuel >= 12
    ensures Run(Sample, Start, fuel) == Recovered(4)
  {
    SampleFromStart();
    RunMoreFuel(Sample, Start, 12, fuel);
  }
}
