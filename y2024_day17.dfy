/** 2024/day17: a computer with three registers and a program of small
    integers. Each instruction is an opcode and an operand; the machine runs
    until its instruction pointer leaves the program. Part 1 prints what the
    program outputs, part 2 searches, three bits at a time, for a value of
    register A that makes the program output itself.

    Go's int is 64 bits wide: `1 << k` and `^` are modelled with that width
    (ShiftOne, Xor64); register values are otherwise unbounded. Go's Run loop
    need not stop, so every run carries fuel: the number of instructions it
    may execute. */
module Y2024Day17 {
  import opened Text
  import opened GoMath

  const Two63: int := 0x8000_0000_0000_0000
  const Two64: int := 0x1_0000_0000_0000_0000

  lemma PowersOfTwo()
    ensures Pow(2, 63) == Two63 && Pow(2, 64) == Two64
  {
    assert Pow(2, 8) == 256;
    PowAdd(2, 8, 8);
    PowAdd(2, 16, 16);
    PowAdd(2, 16, 8);
    PowAdd(2, 32, 24);
    PowAdd(2, 32, 32);
    PowAdd(2, 56, 7);
  }

  // ---------------------------------------------------------------------
  // Go's 64-bit integer operators

  /** Bitwise exclusive or of natural numbers, one bit at a time from the
      lowest. */
  function XorBits(x: nat, y: nat): nat
    decreases x + y
  {
    if x == 0 then y
    else if y == 0 then x
    else 2 * XorBits(x / 2, y / 2) + (if x % 2 == y % 2 then 0 else 1)
  }

  lemma {:induction false} XorBitsBound(x: nat, y: nat, k: nat)
    requires x < Pow(2, k) && y < Pow(2, k)
    ensures XorBits(x, y) < Pow(2, k)
    decreases x + y
  {
    if x != 0 && y != 0 {
      assert k > 0;
      assert Pow(2, k) == 2 * Pow(2, k - 1);
      XorBitsBound(x / 2, y / 2, k - 1);
    }
  }

  /** Go's x ^ y on int: exclusive or of the two's-complement bits. */
  function Xor64(x: int, y: int): (r: int)
    ensures -Two63 <= r < Two63
  {
    var u := XorBits(x % Two64, y % Two64);
    PowersOfTwo();
    XorBitsBound(x % Two64, y % Two64, 64);
    if u < Two63 then u else u - Two64
  }

  /** Exclusive or keeps non-negative 64-bit values non-negative. */
  lemma Xor64NonNegative(x: int, y: int)
    requires 0 <= x < Two63 && 0 <= y < Two63
    ensures 0 <= Xor64(x, y) < Two63
  {
    assert x % Two64 == x && y % Two64 == y;
    PowersOfTwo();
    XorBitsBound(x, y, 63);
    assert XorBits(x, y) < Two63;
  }

  /** Go's 1 << k on int: a negative count panics (None); the single bit
      is shifted out of the 64-bit word from k = 64 on, and k = 63 sets the
      sign bit. */
  function ShiftOne(k: int): (r: Option<int>)
    ensures k < 0 <==> r.None?
    ensures 0 <= k < 63 ==> r == Some(Pow(2, k))
    ensures k >= 64 ==> r == Some(0)
  {
    if k < 0 then None
    else if k < 63 then Some(Pow(2, k))
    else if k == 63 then Some(-Two63)
    else Some(0)
  }

  // ---------------------------------------------------------------------
  // The machine

  /** What makes a Go run panic. */
  datatype Fault =
    | IndexOutOfRange(index: int)
    | InvalidCombo(operand: int)
    | NegativeShift(count: int)
    | DivideByZero

  datatype Result<T> = Ok(value: T) | Fail(fault: Fault)

  /** The registers and the instruction pointer. */
  datatype Regs = Regs(a: int, b: int, c: int, ip: int)

  /** The effect of one instruction: the next registers and what it printed. */
  datatype Moved = Moved(next: Regs, out: seq<int>)

  /** getComboOperandValue: operands up to 3 stand for themselves, 4, 5 and
      6 for registers A, B and C; any other operand is invalid. */
  function Combo(r: Regs, operand: int): (v: Result<int>)
    ensures operand <= 3 ==> v == Ok(operand)
    ensures operand == 4 ==> v == Ok(r.a)
    ensures operand == 5 ==> v == Ok(r.b)
    ensures operand == 6 ==> v == Ok(r.c)
    ensures operand > 6 <==> v.Fail?
  {
    if operand <= 3 then Ok(operand)
    else if operand == 4 then Ok(r.a)
    else if operand == 5 then Ok(r.b)
    else if operand == 6 then Ok(r.c)
    else Fail(InvalidCombo(operand))
  }

  /** A / (1 << combo), shared by adv, bdv and cdv. */
  function DivideA(r: Regs, operand: int): (v: Result<int>)
    ensures var k := Combo(r, operand);
      k.Ok? && 0 <= k.value < 63 ==> Pow(2, k.value) > 0 && v == Ok(TDiv(r.a, Pow(2, k.value)))
    ensures var k := Combo(r, operand); k.Ok? && k.value < 0 ==> v == Fail(NegativeShift(k.value))
    ensures var k := Combo(r, operand); k.Ok? && k.value >= 64 ==> v == Fail(DivideByZero)
    ensures Combo(r, operand).Fail? ==> v == Fail(Combo(r, operand).fault)
  {
    match Combo(r, operand)
    case Fail(f) => Fail(f)
    case Ok(k) =>
      match ShiftOne(k)
      case None => Fail(NegativeShift(k))
      case Some(d) =>
        PowPositive(2, k);
        if d == 0 then Fail(DivideByZero) else Ok(TDiv(r.a, d))
  }

  /** One instruction of Run, given its opcode and operand, with the
      instruction pointer already at the instruction. */
  function Execute(opcode: int, operand: int, r: Regs): Result<Moved>
  {
    var next := r.(ip := r.ip + 2);
    if opcode == 0 then
      match DivideA(r, operand)
      case Fail(f) => Fail(f)
      case Ok(q) => Ok(Moved(next.(a := q), []))
    else if opcode == 1 then Ok(Moved(next.(b := Xor64(r.b, operand)), []))
    else if opcode == 2 then
      match Combo(r, operand)
      case Fail(f) => Fail(f)
      case Ok(v) => Ok(Moved(next.(b := TMod(v, 8)), []))
    else if opcode == 3 then
      if r.a != 0 then Ok(Moved(r.(ip := operand), [])) else Ok(Moved(next, []))
    else if opcode == 4 then Ok(Moved(next.(b := Xor64(r.b, r.c)), []))
    else if opcode == 5 then
      match Combo(r, operand)
      case Fail(f) => Fail(f)
      case Ok(v) => Ok(Moved(next, [TMod(v, 8)]))
    else if opcode == 6 then
      match DivideA(r, operand)
      case Fail(f) => Fail(f)
      case Ok(q) => Ok(Moved(next.(b := q), []))
    else if opcode == 7 then
      match DivideA(r, operand)
      case Fail(f) => Fail(f)
      case Ok(q) => Ok(Moved(next.(c := q), []))
    else Ok(Moved(next, []))
  }

  /** What one instruction does: only out (opcode 5) prints, and at most
      one value; only jnz (opcode 3) jumps; only adv writes A, only bxl, bst,
      bxc and bdv write B, only cdv writes C; and only the instructions that
      read a combo operand can panic. */
  lemma ExecuteEffects(opcode: int, operand: int, r: Regs)
    ensures var m := Execute(opcode, operand, r);
      m.Ok? ==> |m.value.out| <= 1 && (m.value.out != [] ==> opcode == 5)
    ensures var m := Execute(opcode, operand, r);
      m.Ok? ==> m.value.next.ip == (if opcode == 3 && r.a != 0 then operand else r.ip + 2)
    ensures var m := Execute(opcode, operand, r); m.Ok? && opcode != 0 ==> m.value.next.a == r.a
    ensures var m := Execute(opcode, operand, r); m.Ok? && opcode !in {1, 2, 4, 6} ==> m.value.next.b == r.b
    ensures var m := Execute(opcode, operand, r); m.Ok? && opcode != 7 ==> m.value.next.c == r.c
    ensures opcode == 1 ==> Execute(opcode, operand, r) == Ok(Moved(r.(b := Xor64(r.b, operand), ip := r.ip + 2), []))
    ensures opcode == 4 ==> Execute(opcode, operand, r) == Ok(Moved(r.(b := Xor64(r.b, r.c), ip := r.ip + 2), []))
    ensures var m := Execute(opcode, operand, r);
      opcode == 2 && Combo(r, operand).Ok? ==> m.Ok? && m.value.next.b == TMod(Combo(r, operand).value, 8)
    ensures var m := Execute(opcode, operand, r);
      opcode == 5 && Combo(r, operand).Ok? ==> m.Ok? && m.value.out == [TMod(Combo(r, operand).value, 8)]
    ensures var m := Execute(opcode, operand, r); opcode == 0 && m.Ok? ==> DivideA(r, operand) == Ok(m.value.next.a)
    ensures var m := Execute(opcode, operand, r); opcode == 6 && m.Ok? ==> DivideA(r, operand) == Ok(m.value.next.b)
    ensures var m := Execute(opcode, operand, r); opcode == 7 && m.Ok? ==> DivideA(r, operand) == Ok(m.value.next.c)
    ensures Execute(opcode, operand, r).Fail? ==> opcode in {0, 2, 5, 6, 7}
  {
  }

  /** One turn of Run's loop: fetch the opcode and the operand after it
      (either may lie outside the program) and execute. */
  function Step(program: seq<int>, r: Regs): (m: Result<Moved>)
    requires r.ip < |program|
    ensures r.ip < 0 ==> m == Fail(IndexOutOfRange(r.ip))
    ensures 0 <= r.ip && r.ip + 1 >= |program| ==> m == Fail(IndexOutOfRange(r.ip + 1))
    ensures 0 <= r.ip < |program| - 1 ==> m == Execute(program[r.ip], program[r.ip + 1], r)
  {
    if r.ip < 0 then Fail(IndexOutOfRange(r.ip))
    else if r.ip + 1 >= |program| then Fail(IndexOutOfRange(r.ip + 1))
    else Execute(program[r.ip], program[r.ip + 1], r)
  }

  datatype Status = Halted | Crashed(fault: Fault) | OutOfFuel

  /** What a run printed, where it stopped and why. */
  datatype RunResult = RunResult(outs: seq<int>, final: Regs, status: Status)

  /** Run with at most `fuel` instructions: the loop leaves only once the
      instruction pointer is at or past the end of the program. */
  function Exec(program: seq<int>, r: Regs, fuel: nat): (res: RunResult)
    ensures res.status == Halted ==> res.final.ip >= |program|
    ensures res.status != Halted ==> res.final.ip < |program|
    ensures res.status == OutOfFuel ==> |res.outs| <= fuel
    decreases fuel
  {
    if r.ip >= |program| then RunResult([], r, Halted)
    else if fuel == 0 then RunResult([], r, OutOfFuel)
    else match Step(program, r)
      case Fail(f) => RunResult([], r, Crashed(f))
      case Ok(m) =>
        var rest := Exec(program, m.next, fuel - 1);
        RunResult(m.out + rest.outs, rest.final, rest.status)
  }

  /** A run that stopped within its fuel stops the same way with more. */
  lemma {:induction false} ExecMoreFuel(program: seq<int>, r: Regs, fuel: nat, more: nat)
    requires fuel <= more
    requires Exec(program, r, fuel).status != OutOfFuel
    ensures Exec(program, r, more) == Exec(program, r, fuel)
    decreases fuel
  {
    if r.ip < |program| && fuel > 0 {
      match Step(program, r)
      case Fail(_) =>
      case Ok(m) => ExecMoreFuel(program, m.next, fuel - 1, more - 1);
    }
  }

  /** Registers that hold non-negative 64-bit values, and a program of
      non-negative 64-bit values. */
  predicate NonNegative(r: Regs) {
    0 <= r.a < Two63 && 0 <= r.b < Two63 && 0 <= r.c < Two63
  }

  predicate NonNegativeProgram(program: seq<int>) {
    forall i :: 0 <= i < |program| ==> 0 <= program[i] < Two63
  }

  lemma ExecuteKeepsNonNegative(opcode: int, operand: int, r: Regs)
    requires NonNegative(r) && 0 <= operand < Two63
    ensures var m := Execute(opcode, operand, r);
      m.Ok? ==> NonNegative(m.value.next) && forall i :: 0 <= i < |m.value.out| ==> 0 <= m.value.out[i] < 8
  {
    var m := Execute(opcode, operand, r);
    ExecuteEffects(opcode, operand, r);
    if m.Ok? {
      if opcode == 1 {
        Xor64NonNegative(r.b, operand);
      } else if opcode == 4 {
        Xor64NonNegative(r.b, r.c);
      } else if opcode == 0 || opcode == 6 || opcode == 7 {
        DivideANonNegative(r, operand);
      } else if opcode == 2 || opcode == 5 {
        var v := Combo(r, operand).value;
        assert 0 <= v;
        TDivMatchesEuclid(v, 8);
      }
    }
  }

  /** A non-negative register divided by a power of two stays non-negative
      and no larger. */
  lemma DivideANonNegative(r: Regs, operand: int)
    requires NonNegative(r) && 0 <= operand < Two63
    ensures var v := DivideA(r, operand); v.Ok? ==> 0 <= v.value <= r.a
  {
    var k := Combo(r, operand);
    if k.Ok? && 0 <= k.value < 63 {
      var d := Pow(2, k.value);
      PowPositive(2, k.value);
      TDivMatchesEuclid(r.a, d);
      DivNoLarger(r.a, d);
      assert DivideA(r, operand) == Ok(r.a / d);
    } else if k.Ok? && k.value == 63 {
      assert ShiftOne(63) == Some(-Two63);
      assert Abs(r.a) / Abs(-Two63) == 0;
    }
  }


  /** Every value a program prints lies in 0..7, provided the registers
      start non-negative and the program holds no negative value. */
  lemma StepKeepsNonNegative(program: seq<int>, r: Regs)
    requires NonNegative(r) && NonNegativeProgram(program) && r.ip < |program|
    ensures var st := Step(program, r);
      st.Ok? ==> NonNegative(st.value.next) && forall i :: 0 <= i < |st.value.out| ==> 0 <= st.value.out[i] < 8
  {
    if 0 <= r.ip && r.ip + 1 < |program| {
      ExecuteKeepsNonNegative(program[r.ip], program[r.ip + 1], r);
    }
  }

  lemma OctalAppend(x: seq<int>, y: seq<int>)
    requires forall i :: 0 <= i < |x| ==> 0 <= x[i] < 8
    requires forall i :: 0 <= i < |y| ==> 0 <= y[i] < 8
    ensures forall i :: 0 <= i < |x + y| ==> 0 <= (x + y)[i] < 8
  {
  }

  lemma OutputsAreOctalDigits(program: seq<int>, r: Regs, fuel: nat)
    requires NonNegative(r) && NonNegativeProgram(program)
    ensures var outs := Exec(program, r, fuel).outs;
      forall i :: 0 <= i < |outs| ==> 0 <= outs[i] < 8
  {
    RunnerOfRuns(program);
    RunOutputsOctal(program, r, fuel, RunnerOf(program));
    assert RunnerOf(program)(r, fuel) == Exec(program, r, fuel);
  }

  lemma {:induction false} RunOutputsOctal(program: seq<int>, r: Regs, fuel: nat, run: Runner)
    requires NonNegative(r) && NonNegativeProgram(program) && Runs(run, program)
    ensures var outs := run(r, fuel).outs;
      forall i :: 0 <= i < |outs| ==> 0 <= outs[i] < 8
    decreases fuel
  {
    var st := if r.ip < |program| then Step(program, r) else Fail(DivideByZero);
    if r.ip < |program| && fuel > 0 && st.Ok? {
      var m := st.value;
      StepKeepsNonNegative(program, r);
      RunOutputsOctal(program, m.next, fuel - 1, run);
      RunUnfold(run, program, r, fuel);
      OctalAppend(m.out, run(m.next, fuel - 1).outs);
    } else {
      RunStopsSilent(run, program, r, fuel);
    }
  }

  /** One step of a run, seen through a Runner. */
  lemma RunUnfold(run: Runner, program: seq<int>, r: Regs, fuel: nat)
    requires Runs(run, program) && r.ip < |program| && fuel > 0 && Step(program, r).Ok?
    ensures var m := Step(program, r).value; var rest := run(m.next, fuel - 1);
      run(r, fuel) == RunResult(m.out + rest.outs, rest.final, rest.status)
  {
    ExecUnfold(program, r, fuel);
  }

  /** A run that stops at once prints nothing. */
  lemma RunStopsSilent(run: Runner, program: seq<int>, r: Regs, fuel: nat)
    requires Runs(run, program)
    requires r.ip >= |program| || fuel == 0 || Step(program, r).Fail?
    ensures run(r, fuel).outs == []
  {
    ExecStops(program, r, fuel);
  }

  /** One step of a run that has fuel and does not panic. */
  lemma ExecUnfold(program: seq<int>, r: Regs, fuel: nat)
    requires r.ip < |program| && fuel > 0 && Step(program, r).Ok?
    ensures var m := Step(program, r).value; var rest := Exec(program, m.next, fuel - 1);
      Exec(program, r, fuel) == RunResult(m.out + rest.outs, rest.final, rest.status)
  {
  }

  /** Where a run stops at once: past the end, out of fuel, or at an
      instruction that panics. */
  lemma ExecStops(program: seq<int>, r: Regs, fuel: nat)
    ensures r.ip >= |program| ==> Exec(program, r, fuel) == RunResult([], r, Halted)
    ensures r.ip < |program| && fuel == 0 ==> Exec(program, r, fuel) == RunResult([], r, OutOfFuel)
    ensures r.ip < |program| && fuel > 0 && Step(program, r).Fail? ==>
      Exec(program, r, fuel) == RunResult([], r, Crashed(Step(program, r).fault))
  {
  }

  /** ProblemInput: the registers, the instruction pointer and the program. */
  class Computer {
    var a: int
    var b: int
    var c: int
    var ip: int
    var program: seq<int>

    function State(): Regs
      reads this
    {
      Regs(a, b, c, ip)
    }

    constructor (a: int, b: int, c: int, program: seq<int>)
      ensures State() == Regs(a, b, c, 0) && this.program == program
    {
      this.a, this.b, this.c, this.ip := a, b, c, 0;
      this.program := program;
    }

    /** getComboOperandValue */
    method ComboOperand(operand: int) returns (v: Result<int>)
      ensures v == Combo(State(), operand)
    {
      if operand <= 3 {
        return Ok(operand);
      }
      if operand == 4 {
        v := Ok(a);
      } else if operand == 5 {
        v := Ok(b);
      } else if operand == 6 {
        v := Ok(c);
      } else {
        v := Fail(InvalidCombo(operand));
      }
    }

    /** The body of Run's switch together with the pointer update: the
        fields change as Execute says, or the instruction panics and they
        stay as they were. */
    method ExecuteInstruction(opcode: int, operand: int) returns (out: seq<int>, fault: Option<Fault>)
      modifies this
      ensures program == old(program)
      ensures var m := Execute(opcode, operand, old(State()));
        && (m.Fail? <==> fault.Some?)
        && (m.Fail? ==> fault.value == m.fault && State() == old(State()))
        && (m.Ok? ==> State() == m.value.next && out == m.value.out)
    {
      out := [];
      fault := None;
      if opcode == 0 || opcode == 6 || opcode == 7 {
        var k := ComboOperand(operand);
        if k.Fail? {
          return out, Some(k.fault);
        } else if k.value < 0 {
          return out, Some(NegativeShift(k.value));
        }
        var d := ShiftOne(k.value).value;
        if d == 0 {
          return out, Some(DivideByZero);
        } else if opcode == 0 {
          a := TDiv(a, d);
        } else if opcode == 6 {
          b := TDiv(a, d);
        } else {
          c := TDiv(a, d);
        }
      } else if opcode == 1 {
        b := Xor64(b, operand);
      } else if opcode == 2 || opcode == 5 {
        var v := ComboOperand(operand);
        if v.Fail? {
          return out, Some(v.fault);
        } else if opcode == 2 {
          b := TMod(v.value, 8);
        } else {
          out := [TMod(v.value, 8)];
        }
      } else if opcode == 4 {
        b := Xor64(b, c);
      }
      if opcode == 3 && a != 0 {
        ip := operand;
      } else {
        ip := ip + 2;
      }
    }

    /** Run: execute instructions until the pointer leaves the program (or
        the fuel runs out, or an instruction panics), collecting outputs. */
    method Run(fuel: nat) returns (outputs: seq<int>, status: Status)
      modifies this
      ensures program == old(program)
      ensures var r := Exec(program, old(State()), fuel);
        outputs == r.outs && State() == r.final && status == r.status
    {
      ghost var start := State();
      RunnerOfRuns(program);
      outputs, status := RunLoop(fuel, RunnerOf(program));
      assert RunnerOf(program)(start, fuel) == Exec(program, start, fuel);
    }

    /** Run's loop, proved against any function that gives the outcome of
        every run (Exec, passed as a ghost so that the loop's proof does not
        unfold the machine). */
    method RunLoop(fuel: nat, ghost run: Runner) returns (outputs: seq<int>, status: Status)
      requires Runs(run, program)
      modifies this
      ensures program == old(program)
      ensures var r := run(old(State()), fuel);
        outputs == r.outs && State() == r.final && status == r.status
    {
      ghost var goal := run(State(), fuel);
      outputs := [];
      var left := fuel;
      while ip < |program|
        invariant program == old(program)
        invariant var r := run(State(), left);
          goal.outs == outputs + r.outs && goal.final == r.final && goal.status == r.status
        decreases left
      {
        var out, stop := Tick(left, run);
        if stop.Some? {
          return outputs, stop.value;
        }
        outputs := outputs + out;
        left := left - 1;
      }
      HaltsPastEnd(run, program, State(), left);
      status := Halted;
    }

    /** One turn of Run's loop with `left` instructions of fuel: either the
        run stops here, the fields unchanged, or one instruction executes and
        the rest of the run continues from the new state. */
    method Tick(left: nat, ghost run: Runner) returns (out: seq<int>, stop: Option<Status>)
      requires ip < |program| && Runs(run, program)
      modifies this
      ensures program == old(program)
      ensures stop.Some? ==>
        (State() == old(State()) && run(old(State()), left) == RunResult([], State(), stop.value))
      ensures stop.None? ==>
        (left > 0 && var rest := run(State(), left - 1);
         run(old(State()), left) == RunResult(out + rest.outs, rest.final, rest.status))
    {
      ghost var before := State();
      ExecStops(program, before, left);
      if left == 0 {
        return [], Some(OutOfFuel);
      }
      if ip < 0 {
        return [], Some(Crashed(IndexOutOfRange(ip)));
      }
      if ip + 1 >= |program| {
        return [], Some(Crashed(IndexOutOfRange(ip + 1)));
      }
      var opcode := program[ip];
      var operand := program[ip + 1];
      var fault;
      out, fault := ExecuteInstruction(opcode, operand);
      if fault.Some? {
        return [], Some(Crashed(fault.value));
      }
      assert Step(program, before) == Ok(Moved(State(), out));
      ExecUnfold(program, before, left);
      stop := None;
    }
  }

  /** Exec as a function value: the run of the program from any registers
      with any fuel. */
  type Runner = (Regs, nat) -> RunResult

  function RunnerOf(program: seq<int>): Runner {
    (r: Regs, f: nat) => Exec(program, r, f)
  }

  /** `run` gives the outcome of every run of the program. The equation is
      instantiated only where an Exec term occurs. */
  ghost predicate Runs(run: Runner, program: seq<int>) {
    forall r, f {:trigger Exec(program, r, f)} :: run(r, f) == Exec(program, r, f)
  }

  lemma RunnerOfRuns(program: seq<int>)
    ensures Runs(RunnerOf(program), program)
  {
  }

  lemma HaltsPastEnd(run: Runner, program: seq<int>, r: Regs, fuel: nat)
    requires Runs(run, program) && r.ip >= |program|
    ensures run(r, fuel) == RunResult([], r, Halted)
  {
    ExecStops(program, r, fuel);
  }

  /** runProgram: a fresh machine with the given registers, run from the
      start of the program. */
  method RunProgram(a: int, b: int, c: int, program: seq<int>, fuel: nat) returns (outputs: seq<int>, status: Status)
    ensures var r := Exec(program, Regs(a, b, c, 0), fuel);
      outputs == r.outs && status == r.status
  {
    var computer := new Computer(a, b, c, program);
    outputs, status := computer.Run(fuel);
  }

  // ---------------------------------------------------------------------
  // Part 2: the quine search

  /** How getBestQuineInput ends. A run that panics or does not halt
      within its fuel aborts the whole search. */
  datatype Search = Found(value: int) | NotFound | Aborted

  /** A trial of the search: the program run with register A = a and
      B = C = 0. */
  function TrialRun(program: seq<int>, a: int, fuel: nat): RunResult {
    Exec(program, Regs(a, 0, 0, 0), fuel)
  }

  /** The outcome of a trial for every value of register A. */
  type Trials = int -> RunResult

  function TrialsOf(program: seq<int>, fuel: nat): Trials {
    a => TrialRun(program, a, fuel)
  }

  /** `trials` gives the outcome of every trial run. The equation is
      instantiated only where a TrialRun term occurs, so the search's proofs
      handle outcomes without unfolding the machine. */
  ghost predicate Tries(trials: Trials, program: seq<int>, fuel: nat) {
    forall a {:trigger TrialRun(program, a, fuel)} :: trials(a) == TrialRun(program, a, fuel)
  }

  lemma TrialsOfTries(program: seq<int>, fuel: nat)
    ensures Tries(TrialsOf(program, fuel), program, fuel)
  {
  }

  /** getBestQuineInput from `candidate` on, for any trial outcomes:
      register A = sofar*8 + candidate must make the program print its last
      |program| - cursor values; if so, the search goes one value further
      left (or succeeds at the first value), and otherwise tries the next
      candidate up to 7. */
  function SearchFrom(program: seq<int>, cursor: int, sofar: int, candidate: int, trials: Trials): Search
    requires 0 <= cursor < |program| && 0 <= candidate <= 8
    decreases cursor, 8 - candidate
  {
    if candidate == 8 then NotFound
    else
      var testA := sofar * 8 + candidate;
      var run := trials(testA);
      if run.status != Halted then Aborted
      else if run.outs != program[cursor..] then SearchFrom(program, cursor, sofar, candidate + 1, trials)
      else if cursor == 0 then Found(testA)
      else match SearchFrom(program, cursor - 1, testA, 0, trials)
        case Found(v) => Found(v)
        case Aborted => Aborted
        case NotFound => SearchFrom(program, cursor, sofar, candidate + 1, trials)
  }

  /** getBestQuineInput on the machine's own runs. */
  function QuineCandidates(program: seq<int>, cursor: int, sofar: int, candidate: int, fuel: nat): Search
    requires 0 <= cursor < |program| && 0 <= candidate <= 8
  {
    SearchFrom(program, cursor, sofar, candidate, TrialsOf(program, fuel))
  }

  /** What the search finds is a value whose trial prints exactly the
      program and halts. */
  lemma {:induction false} SearchFromSound(program: seq<int>, cursor: int, sofar: int, candidate: int, trials: Trials)
    requires 0 <= cursor < |program| && 0 <= candidate <= 8
    ensures var s := SearchFrom(program, cursor, sofar, candidate, trials);
      s.Found? ==> trials(s.value).outs == program && trials(s.value).status == Halted
    decreases cursor, 8 - candidate
  {
    if candidate < 8 {
      var testA := sofar * 8 + candidate;
      var run := trials(testA);
      if run.status == Halted {
        if run.outs != program[cursor..] {
          SearchFromSound(program, cursor, sofar, candidate + 1, trials);
        } else if cursor == 0 {
          assert program[0..] == program;
        } else {
          SearchFromSound(program, cursor - 1, testA, 0, trials);
          SearchFromSound(program, cursor, sofar, candidate + 1, trials);
        }
      }
    }
  }

  /** What the search finds makes the program, run with B = C = 0, print
      exactly itself and halt. */
  lemma QuineCandidatesSound(program: seq<int>, cursor: int, sofar: int, candidate: int, fuel: nat)
    requires 0 <= cursor < |program| && 0 <= candidate <= 8
    ensures var s := QuineCandidates(program, cursor, sofar, candidate, fuel);
      s.Found? ==> var r := Exec(program, Regs(s.value, 0, 0, 0), fuel);
        r.outs == program && r.status == Halted
  {
    var trials := TrialsOf(program, fuel);
    SearchFromSound(program, cursor, sofar, candidate, trials);
    var s := SearchFrom(program, cursor, sofar, candidate, trials);
    if s.Found? {
      assert trials(s.value) == TrialRun(program, s.value, fuel);
    }
  }

  /** The search is complete for one step: when it reports nothing, no
      candidate at the first value left (cursor 0) reproduces the program. */
  lemma {:induction false} SearchFromNotFoundAtFirst(program: seq<int>, sofar: int, candidate: int, trials: Trials)
    requires 0 < |program| && 0 <= candidate <= 8
    requires SearchFrom(program, 0, sofar, candidate, trials) == NotFound
    ensures forall v :: sofar * 8 + candidate <= v < sofar * 8 + 8 ==> trials(v).outs != program
    decreases 8 - candidate
  {
    if candidate < 8 {
      assert program[0..] == program;
      SearchFromNotFoundAtFirst(program, sofar, candidate + 1, trials);
    }
  }

  lemma QuineNotFoundAtFirst(program: seq<int>, sofar: int, candidate: int, fuel: nat)
    requires 0 < |program| && 0 <= candidate <= 8
    requires QuineCandidates(program, 0, sofar, candidate, fuel) == NotFound
    ensures forall v :: sofar * 8 + candidate <= v < sofar * 8 + 8 ==>
      Exec(program, Regs(v, 0, 0, 0), fuel).outs != program
  {
    var trials := TrialsOf(program, fuel);
    SearchFromNotFoundAtFirst(program, sofar, candidate, trials);
    forall v | sofar * 8 + candidate <= v < sofar * 8 + 8
      ensures Exec(program, Regs(v, 0, 0, 0), fuel).outs != program
    {
      assert trials(v) == TrialRun(program, v, fuel);
    }
  }

  /** One trial of getBestQuineInput's loop. */
  method Trial(program: seq<int>, testA: int, fuel: nat, ghost trials: Trials) returns (output: seq<int>, status: Status)
    requires Tries(trials, program, fuel)
    ensures output == trials(testA).outs && status == trials(testA).status
  {
    output, status := RunProgram(testA, 0, 0, program, fuel);
    assert trials(testA) == TrialRun(program, testA, fuel);
  }

  /** getBestQuineInput */
  method GetBestQuineInput(program: seq<int>, cursor: int, sofar: int, fuel: nat, ghost trials: Trials)
    returns (s: Search)
    requires 0 <= cursor < |program| && Tries(trials, program, fuel)
    ensures s == SearchFrom(program, cursor, sofar, 0, trials)
    decreases cursor
  {
    var candidate := 0;
    while candidate < 8
      invariant 0 <= candidate <= 8
      invariant SearchFrom(program, cursor, sofar, 0, trials)
        == SearchFrom(program, cursor, sofar, candidate, trials)
    {
      var testA := sofar * 8 + candidate;
      var output, status := Trial(program, testA, fuel, trials);
      if status != Halted {
        return Aborted;
      }
      if output == program[cursor..] {
        if cursor == 0 {
          return Found(testA);
        }
        var ret := GetBestQuineInput(program, cursor - 1, sofar * 8 + candidate, fuel, trials);
        if ret.Found? {
          return ret;
        }
        if ret.Aborted? {
          return Aborted;
        }
      }
      candidate := candidate + 1;
    }
    return NotFound;
  }

  /** RecoverCorruptedRegisterASmart: start the search at the last value
      with nothing chosen yet; -1 when nothing is found. None when the
      search aborts. An empty program makes Go's slice program[-1:] panic. */
  method RecoverRegisterA(program: seq<int>, fuel: nat) returns (a: Option<int>)
    requires |program| >= 1
    ensures a.Some? && a.value != -1 ==>
      var r := Exec(program, Regs(a.value, 0, 0, 0), fuel);
      r.outs == program && r.status == Halted
    ensures a == Some(-1) <==> QuineCandidates(program, |program| - 1, 0, 0, fuel) == NotFound
  {
    TrialsOfTries(program, fuel);
    var s := GetBestQuineInput(program, |program| - 1, 0, fuel, TrialsOf(program, fuel));
    QuineCandidatesSound(program, |program| - 1, 0, 0, fuel);
    QuineFoundNonNegative(program, |program| - 1, 0, 0, TrialsOf(program, fuel));
    match s
    case Found(v) => a := Some(v);
    case NotFound => a := Some(-1);
    case Aborted => a := None;
  }

  /** Starting from a non-negative prefix, every value tried, and so every
      value found, is non-negative. */
  lemma {:induction false} QuineFoundNonNegative(program: seq<int>, cursor: int, sofar: int, candidate: int, trials: Trials)
    requires 0 <= cursor < |program| && 0 <= candidate <= 8 && sofar >= 0
    ensures var s := SearchFrom(program, cursor, sofar, candidate, trials);
      s.Found? ==> s.value >= 0
    decreases cursor, 8 - candidate
  {
    if candidate < 8 {
      var testA := sofar * 8 + candidate;
      if cursor > 0 {
        QuineFoundNonNegative(program, cursor - 1, testA, 0, trials);
      }
      QuineFoundNonNegative(program, cursor, sofar, candidate + 1, trials);
    }
  }

  // ---------------------------------------------------------------------
  // Part 1 output: the values separated by commas

  /** The values written in decimal and separated by commas. */
  function CommaSeparated(values: seq<int>): string {
    if values == [] then ""
    else if |values| == 1 then Itoa(values[0])
    else CommaSeparated(values[..|values| - 1]) + "," + Itoa(values[|values| - 1])
  }

  /** SolvePart1's join loop: a comma before every value but the first. */
  method JoinOutputs(outputs: seq<int>) returns (s: string)
    ensures s == CommaSeparated(outputs)
  {
    s := "";
    for i := 0 to |outputs|
      invariant s == CommaSeparated(outputs[..i])
    {
      CommaSeparatedStep(outputs, i);
      if i > 0 {
        s := s + ",";
      }
      s := s + Itoa(outputs[i]);
    }
    assert outputs[..|outputs|] == outputs;
  }

  lemma CommaSeparatedStep(values: seq<int>, i: nat)
    requires i < |values|
    ensures CommaSeparated(values[..i + 1])
      == (if i == 0 then "" else CommaSeparated(values[..i]) + ",") + Itoa(values[i])
  {
    assert values[..i + 1][..i] == values[..i];
    if i == 0 {
      assert values[..1] == [values[0]];
    }
  }

  lemma {:induction false} CommaSeparatedIsJoin(values: seq<int>)
    requires |values| >= 1
    ensures CommaSeparated(values) == Join(ItoaAll(values), ',')
    decreases |values|
  {
    if |values| > 1 {
      var init := values[..|values| - 1];
      CommaSeparatedIsJoin(init);
      JoinSnoc(ItoaAll(init), Itoa(values[|values| - 1]), ',');
    }
  }

  /** The joined output splits at its commas back into the values: no comma
      leads, trails or doubles. */
  lemma CommaSeparatedRoundTrip(values: seq<int>)
    requires |values| >= 1
    ensures AtoiAll(Split(CommaSeparated(values), ',')) == Some(values)
  {
    CommaSeparatedIsJoin(values);
    var parts := ItoaAll(values);
    forall i | 0 <= i < |parts|
      ensures ',' !in parts[i]
    {
      ItoaNoSeparator(values[i], ',');
    }
    SplitJoin(parts, ',');
    AtoiAllItoaAll(values);
  }

  // ---------------------------------------------------------------------
  // parseInput

  /** The registers and the program read from the input. */
  datatype Listing = Listing(a: int, b: int, c: int, program: seq<int>)

  /** One line of parseInput: blank lines are skipped; a line starting
      "Register A", "Register B" or "Register C" sets that register from the
      text after "Register X: "; a line starting "Program: " appends its
      comma-separated values. Other lines are ignored. A value that is not a
      number panics (None). */
  function ParseLine(acc: Listing, line: string): (r: Option<Listing>)
    ensures TrimSpace(line) == [] ==> r == Some(acc)
    ensures r.Some? ==> |acc.program| <= |r.value.program|
  {
    if TrimSpace(line) == [] then Some(acc)
    else if HasPrefix(line, "Register A") then
      match Atoi(TrimPrefix(line, "Register A: "))
      case None => None
      case Some(v) => Some(acc.(a := v))
    else if HasPrefix(line, "Register B") then
      match Atoi(TrimPrefix(line, "Register B: "))
      case None => None
      case Some(v) => Some(acc.(b := v))
    else if HasPrefix(line, "Register C") then
      match Atoi(TrimPrefix(line, "Register C: "))
      case None => None
      case Some(v) => Some(acc.(c := v))
    else if HasPrefix(line, "Program: ") then
      match AtoiAll(Split(TrimPrefix(line, "Program: "), ','))
      case None => None
      case Some(vs) => Some(acc.(program := acc.program + vs))
    else Some(acc)
  }

  /** The lines read one after another with a per-line step, stopping at
      the first line the step rejects. */
  function ParseLinesWith(lines: seq<string>, step: LineStep): Option<Listing> {
    if lines == [] then Some(Listing(0, 0, 0, []))
    else match ParseLinesWith(lines[..|lines| - 1], step)
      case None => None
      case Some(acc) => step(acc, lines[|lines| - 1])
  }

  type LineStep = (Listing, string) -> Option<Listing>

  /** The step is parseInput's treatment of one line. The equation is
      instantiated only where a ParseLine term occurs, so proofs about the
      line loop handle steps without unfolding ParseLine. */
  ghost predicate ReadsLines(step: LineStep) {
    forall acc, line {:trigger ParseLine(acc, line)} :: step(acc, line) == ParseLine(acc, line)
  }

  /** parseInput on a list of lines. */
  function ParseLines(lines: seq<string>): Option<Listing> {
    ParseLinesWith(lines, ParseLine)
  }

  lemma ParseLineReadsLines()
    ensures ReadsLines(ParseLine)
  {
  }

  lemma ParseLinesStep(lines: seq<string>, i: nat, step: LineStep)
    requires i < |lines|
    ensures var before := ParseLinesWith(lines[..i], step);
      ParseLinesWith(lines[..i + 1], step) == if before.None? then None else step(before.value, lines[i])
  {
    assert lines[..i + 1][..i] == lines[..i];
  }

  /** Once a line fails to parse, the whole input fails. */
  lemma {:induction false} ParseLinesFailureSticks(lines: seq<string>, k: nat, step: LineStep)
    requires k <= |lines| && ParseLinesWith(lines[..k], step) == None
    ensures ParseLinesWith(lines, step) == None
    decreases |lines| - k
  {
    if k == |lines| {
      assert lines[..k] == lines;
    } else {
      assert lines[..k + 1][..k] == lines[..k];
      ParseLinesFailureSticks(lines, k + 1, step);
    }
  }

  /** parseInput: the lines of the input, one after another. */
  method ParseInput(input: string) returns (listing: Option<Listing>)
    ensures listing == ParseLines(Split(input, '\n'))
  {
    ParseLineReadsLines();
    listing := ParseListing(Split(input, '\n'), ParseLine);
  }

  /** The loop of parseInput over the lines; step is ParseLine, passed as a
      ghost so that the loop's proof does not unfold it. */
  method ParseListing(lines: seq<string>, ghost step: LineStep) returns (listing: Option<Listing>)
    requires ReadsLines(step)
    ensures listing == ParseLinesWith(lines, step)
  {
    var acc := Listing(0, 0, 0, []);
    for i := 0 to |lines|
      invariant ParseLinesWith(lines[..i], step) == Some(acc)
    {
      ParseLinesStep(lines, i, step);
      var next := ParseOneLine(acc, lines[i], step);
      if next.None? {
        ParseLinesFailureSticks(lines, i + 1, step);
        return None;
      }
      acc := next.value;
    }
    assert lines[..|lines|] == lines;
    listing := Some(acc);
  }

  method ParseOneLine(acc: Listing, line: string, ghost step: LineStep) returns (next: Option<Listing>)
    requires ReadsLines(step)
    ensures next == step(acc, line)
  {
    next := ParseLine(acc, line);
  }

  /** The input text of a listing, as the puzzle writes it. */
  function Render(l: Listing): seq<string>
    requires |l.program| >= 1
  {
    ["Register A: " + Itoa(l.a), "Register B: " + Itoa(l.b), "Register C: " + Itoa(l.c), "",
     "Program: " + CommaSeparated(l.program)]
  }

  lemma NotBlank(s: string)
    requires s != [] && !IsSpace(s[0])
    ensures TrimSpace(s) != []
  {
    assert TrimLeft(s) == s;
    TrimSpaceShape(s);
  }

  lemma CharRulesOutPrefix(s: string, p: string, k: nat)
    requires k < |s| && k < |p| && s[k] != p[k]
    ensures !HasPrefix(s, p)
  {
    if |p| <= |s| {
      assert s[..|p|][k] != p[k];
    }
  }

  /** A register line "Register X: v", a ten-character name followed by a
      colon and a space and then v, is not blank, starts with the name and
      leaves v's digits after the colon and the space. */
  lemma RegisterLineText(name: string, prefix: string, v: int)
    requires |name| == 10 && name[0] == 'R' && prefix == name + ": "
    ensures var line := prefix + Itoa(v);
      && TrimSpace(line) != [] && HasPrefix(line, name) && line[9] == name[9]
      && TrimPrefix(line, prefix) == Itoa(v)
  {
    var line := prefix + Itoa(v);
    NotBlank(line);
    assert line[..10] == name;
    assert line[..12] == prefix;
    assert line[12..] == Itoa(v);
  }

  /** "Register A: v" sets register A to v, for ParseLine and any step that
      agrees with it. */
  lemma RegisterLineA(acc: Listing, v: int, step: LineStep)
    requires ReadsLines(step)
    ensures step(acc, "Register A: " + Itoa(v)) == Some(acc.(a := v))
  {
    var line := "Register A: " + Itoa(v);
    assert step(acc, line) == ParseLine(acc, line);
    RegisterLineText("Register A", "Register A: ", v);
    AtoiItoa(v);
  }

  /** "Register B: v" sets register B to v. */
  lemma RegisterLineB(acc: Listing, v: int, step: LineStep)
    requires ReadsLines(step)
    ensures step(acc, "Register B: " + Itoa(v)) == Some(acc.(b := v))
  {
    var line := "Register B: " + Itoa(v);
    assert step(acc, line) == ParseLine(acc, line);
    RegisterLineText("Register B", "Register B: ", v);
    CharRulesOutPrefix(line, "Register A", 9);
    AtoiItoa(v);
  }

  /** "Register C: v" sets register C to v. */
  lemma RegisterLineC(acc: Listing, v: int, step: LineStep)
    requires ReadsLines(step)
    ensures step(acc, "Register C: " + Itoa(v)) == Some(acc.(c := v))
  {
    var line := "Register C: " + Itoa(v);
    assert step(acc, line) == ParseLine(acc, line);
    RegisterLineText("Register C", "Register C: ", v);
    CharRulesOutPrefix(line, "Register A", 9);
    CharRulesOutPrefix(line, "Register B", 9);
    AtoiItoa(v);
  }

  /** "Program: " followed by the values separated by commas appends the
      values to the program. */
  lemma ProgramLine(acc: Listing, program: seq<int>, step: LineStep)
    requires |program| >= 1 && ReadsLines(step)
    ensures step(acc, "Program: " + CommaSeparated(program)) == Some(acc.(program := acc.program + program))
  {
    var p := "Program: " + CommaSeparated(program);
    assert step(acc, p) == ParseLine(acc, p);
    ProgramLineText(program);
    CommaSeparatedRoundTrip(program);
  }

  lemma ProgramLineText(program: seq<int>)
    ensures var p := "Program: " + CommaSeparated(program);
      && TrimSpace(p) != [] && HasPrefix(p, "Program: ") && TrimPrefix(p, "Program: ") == CommaSeparated(program)
      && !HasPrefix(p, "Register A") && !HasPrefix(p, "Register B") && !HasPrefix(p, "Register C")
  {
    var p := "Program: " + CommaSeparated(program);
    NotBlank(p);
    assert p[..9] == "Program: ";
    assert p[0] == 'P';
    CharRulesOutPrefix(p, "Register A", 0);
    CharRulesOutPrefix(p, "Register B", 0);
    CharRulesOutPrefix(p, "Register C", 0);
  }

  /** The three register lines set the three registers. */
  lemma ParseRegisterLines(a: int, b: int, c: int, step: LineStep)
    requires ReadsLines(step)
    ensures ParseLinesWith(["Register A: " + Itoa(a), "Register B: " + Itoa(b), "Register C: " + Itoa(c)], step)
      == Some(Listing(a, b, c, []))
  {
    var lines := ["Register A: " + Itoa(a), "Register B: " + Itoa(b), "Register C: " + Itoa(c)];
    assert lines[..0] == [];
    ParseLinesStep(lines, 0, step);
    RegisterLineA(Listing(0, 0, 0, []), a, step);
    ParseLinesStep(lines, 1, step);
    RegisterLineB(Listing(a, 0, 0, []), b, step);
    ParseLinesStep(lines, 2, step);
    RegisterLineC(Listing(a, b, 0, []), c, step);
    assert lines[..3] == lines;
  }

  lemma ParseLinesSnoc(lines: seq<string>, line: string, step: LineStep)
    ensures var before := ParseLinesWith(lines, step);
      ParseLinesWith(lines + [line], step) == if before.None? then None else step(before.value, line)
  {
    assert (lines + [line])[..|lines|] == lines;
  }

  lemma ParseTwoMore(lines: seq<string>, x: string, y: string, acc: Listing, mid: Listing, result: Listing, step: LineStep)
    requires ParseLinesWith(lines, step) == Some(acc)
    requires step(acc, x) == Some(mid) && step(mid, y) == Some(result)
    ensures ParseLinesWith(lines + [x, y], step) == Some(result)
  {
    ParseLinesSnoc(lines, x, step);
    ParseLinesSnoc(lines + [x], y, step);
    assert lines + [x] + [y] == lines + [x, y];
  }

  /** parseInput reads back what Render writes. */
  lemma ParseRender(l: Listing)
    requires |l.program| >= 1
    ensures ParseLines(Render(l)) == Some(l)
  {
    ParseLineReadsLines();
    RenderReadBack(l, ParseLine);
  }

  lemma RenderReadBack(l: Listing, step: LineStep)
    requires |l.program| >= 1 && ReadsLines(step)
    ensures ParseLinesWith(Render(l), step) == Some(l)
  {
    var regs := ["Register A: " + Itoa(l.a), "Register B: " + Itoa(l.b), "Register C: " + Itoa(l.c)];
    var prog := "Program: " + CommaSeparated(l.program);
    var l3 := Listing(l.a, l.b, l.c, []);
    ParseRegisterLines(l.a, l.b, l.c, step);
    BlankLine(l3, step);
    ProgramLine(l3, l.program, step);
    assert [] + l.program == l.program;
    ParseTwoMore(regs, "", prog, l3, l3, l, step);
    assert Render(l) == regs + ["", prog];
  }

  /** A blank line changes nothing. */
  lemma BlankLine(acc: Listing, step: LineStep)
    requires ReadsLines(step)
    ensures step(acc, "") == Some(acc)
  {
    assert step(acc, "") == ParseLine(acc, "");
    assert TrimSpace("") == [];
  }

  // ---------------------------------------------------------------------
  // The two parts

  /** SolvePart1: parse, run from the parsed registers, join the outputs.
      None when the input does not parse, the program panics or runs out of
      fuel. */
  method SolvePart1(input: string, fuel: nat) returns (answer: Option<string>)
    ensures var l := ParseLines(Split(input, '\n'));
      answer.Some? <==> l.Some? && Exec(l.value.program, Regs(l.value.a, l.value.b, l.value.c, 0), fuel).status == Halted
    ensures answer.Some? ==> var l := ParseLines(Split(input, '\n')).value;
      answer.value == CommaSeparated(Exec(l.program, Regs(l.a, l.b, l.c, 0), fuel).outs)
  {
    var listing := ParseInput(input);
    if listing.None? {
      return None;
    }
    var l := listing.value;
    var outputs, status := RunProgram(l.a, l.b, l.c, l.program, fuel);
    if status != Halted {
      return None;
    }
    var s := JoinOutputs(outputs);
    answer := Some(s);
  }

  /** SolvePart2: the register-A search over the parsed program. */
  method SolvePart2(input: string, fuel: nat) returns (answer: Option<string>)
    ensures var l := ParseLines(Split(input, '\n'));
      answer.Some? && answer.value != "-1" ==>
        (l.Some? && |l.value.program| >= 1 &&
         exists v :: answer.value == Itoa(v) && Exec(l.value.program, Regs(v, 0, 0, 0), fuel).outs == l.value.program)
  {
    var listing := ParseInput(input);
    if listing.None? || |listing.value.program| == 0 {
      return None;
    }
    var a := RecoverRegisterA(listing.value.program, fuel);
    if a.None? {
      return None;
    }
    answer := Some(Itoa(a.value));
    if a.value == -1 {
      return;
    }
    assert answer.value == Itoa(a.value);
  }
}
