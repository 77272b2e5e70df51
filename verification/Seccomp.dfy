/** The system-call filter of the time setter as a classic BPF program. */
module Seccomp {
  import opened Settings

  const RET_KILL: int := 0x0000_0000
  const RET_ERRNO: int := 0x0005_0000
  const RET_ALLOW: int := 0x7fff_0000
  const EINVAL: nat := 22
  const BPF_MAXINSNS: nat := 4096

  type word = x: int | 0 <= x < TWO_32

  /** The two words of `struct seccomp_data` the filter reads. */
  datatype Call = Call(arch: word, nr: word)

  datatype Operand = Arch | Nr

  /** Load a word, compare it with a constant and skip ahead, or return a constant. */
  datatype Instruction =
    | Load(what: Operand)
    | JumpIfEqual(k: word, jt: nat, jf: nat)
    | Return(k: word)

  datatype Rule = Allow(nr: word) | Deny(nr: word, errno: nat)
  {
    predicate Valid() {
      Deny? ==> errno < 0x1_0000
    }
  }

  /** SC_ALLOW and SC_DENY: compare, and on a match fall through to the return. */
  function Expand(rule: Rule): seq<Instruction>
    requires rule.Valid()
  {
    [JumpIfEqual(rule.nr, 0, 1), Return(Verdict(rule))]
  }

  function Verdict(rule: Rule): word
    requires rule.Valid()
  {
    match rule
    case Allow(_) => RET_ALLOW
    case Deny(_, errno) => RET_ERRNO + errno
  }

  predicate Rules(rules: seq<Rule>) {
    forall i :: 0 <= i < |rules| ==> rules[i].Valid()
  }

  function ExpandAll(rules: seq<Rule>): (p: seq<Instruction>)
    requires Rules(rules)
    ensures |p| == 2 * |rules|
  {
    if rules == [] then [] else Expand(rules[0]) + ExpandAll(rules[1..])
  }

  /** The instruction table: check the architecture, load the number, the rules, kill. */
  function Compile(arch: word, rules: seq<Rule>): seq<Instruction>
    requires Rules(rules)
  {
    [Load(Arch), JumpIfEqual(arch, 1, 0), Return(RET_KILL), Load(Nr)] + ExpandAll(rules) + [Return(RET_KILL)]
  }

  datatype Run = Result(value: word) | OffTheEnd

  /** The kernel's interpreter from `pc` with accumulator `a`; jumps only go forward. */
  function Interpret(p: seq<Instruction>, pc: nat, a: word, call: Call): Run
    decreases if pc < |p| then |p| - pc else 0
  {
    if pc >= |p| then OffTheEnd
    else
      match p[pc]
      case Load(what) => Interpret(p, pc + 1, if what == Arch then call.arch else call.nr, call)
      case JumpIfEqual(k, jt, jf) => Interpret(p, pc + 1 + (if a == k then jt else jf), a, call)
      case Return(k) => Result(k)
  }

  /** What the table says, read as a list: the first rule for the number decides. */
  function Policy(rules: seq<Rule>, nr: word): word
    requires Rules(rules)
  {
    if rules == [] then RET_KILL
    else if rules[0].nr == nr then Verdict(rules[0])
    else Policy(rules[1..], nr)
  }

  lemma {:induction false} ExpandAllAt(rules: seq<Rule>, i: nat)
    requires Rules(rules) && i < |rules|
    ensures ExpandAll(rules)[2 * i] == JumpIfEqual(rules[i].nr, 0, 1)
    ensures ExpandAll(rules)[2 * i + 1] == Return(Verdict(rules[i]))
  {
    if i > 0 {
      ExpandAllAt(rules[1..], i - 1);
      assert ExpandAll(rules)[2..] == ExpandAll(rules[1..]);
    }
  }

  lemma {:induction false} RulesDecide(arch: word, rules: seq<Rule>, i: nat, call: Call)
    requires Rules(rules) && i <= |rules|
    ensures Interpret(Compile(arch, rules), 4 + 2 * i, call.nr, call) == Result(Policy(rules[i..], call.nr))
    decreases |rules| - i
  {
    var p := Compile(arch, rules);
    if i < |rules| {
      ExpandAllAt(rules, i);
      assert p[4 + 2 * i] == JumpIfEqual(rules[i].nr, 0, 1);
      assert p[4 + 2 * i + 1] == Return(Verdict(rules[i]));
      assert rules[i..][1..] == rules[i + 1..];
      RulesDecide(arch, rules, i + 1, call);
    } else {
      assert p[4 + 2 * i] == Return(RET_KILL);
    }
  }

  /** The program kills on a foreign architecture and otherwise does what the first matching rule says. */
  lemma {:induction false} FilterImplementsPolicy(arch: word, rules: seq<Rule>, a: word, call: Call)
    requires Rules(rules)
    ensures Interpret(Compile(arch, rules), 0, a, call)
         == Result(if call.arch != arch then RET_KILL else Policy(rules, call.nr))
  {
    var p := Compile(arch, rules);
    assert p[0] == Load(Arch) && p[1] == JumpIfEqual(arch, 1, 0) && p[2] == Return(RET_KILL) && p[3] == Load(Nr);
    if call.arch == arch {
      calc {
        Interpret(p, 0, a, call);
        Interpret(p, 1, call.arch, call);
        Interpret(p, 3, call.arch, call);
        Interpret(p, 4, call.nr, call);
      }
      RulesDecide(arch, rules, 0, call);
      assert rules[0..] == rules;
    } else {
      assert Interpret(p, 0, a, call) == Interpret(p, 2, call.arch, call);
    }
  }

  /** The kernel's checks: not too long, a return at the end, and every jump lands inside. */
  predicate Loadable(p: seq<Instruction>) {
    && 0 < |p| <= BPF_MAXINSNS && p[|p| - 1].Return?
    && forall pc :: 0 <= pc < |p| && p[pc].JumpIfEqual? ==>
         p[pc].jt < 256 && p[pc].jf < 256 && pc + 1 + p[pc].jt < |p| && pc + 1 + p[pc].jf < |p|
  }

  lemma {:induction false} FilterIsLoadable(arch: word, rules: seq<Rule>)
    requires Rules(rules)
    ensures Loadable(Compile(arch, rules)) <==> 2 * |rules| + 5 <= BPF_MAXINSNS
  {
    var p := Compile(arch, rules);
    forall pc | 0 <= pc < |p| && p[pc].JumpIfEqual?
      ensures p[pc].jt < 256 && p[pc].jf < 256 && pc + 1 + p[pc].jt < |p| && pc + 1 + p[pc].jf < |p|
    {
      if 4 <= pc < |p| - 1 {
        var i := (pc - 4) / 2;
        ExpandAllAt(rules, i);
        assert p[pc] == ExpandAll(rules)[pc - 4];
      }
    }
  }

  // ---- the setter's own table ----

  datatype Syscall =
    | SysRead | SysWrite | SysPwritev | SysSettimeofday | SysIoctl | SysTime | SysLseek | SysClose | SysMunmap
    | SysExitGroup | SysExit
    | SysOpen | SysFcntl | SysFstat | SysMmap | SysMmap2 | SysSendto | SysSocket | SysSocketcall

  /** The entries of the table in order. */
  const Entries: seq<Syscall> :=
    [SysRead, SysWrite, SysPwritev, SysSettimeofday, SysIoctl, SysTime, SysLseek, SysClose, SysMunmap,
     SysExitGroup, SysExit, SysOpen, SysFcntl, SysFstat, SysMmap, SysMmap2, SysSendto, SysSocket, SysSocketcall]

  /** The entries that are denied with EINVAL; the others are allowed. */
  predicate Denied(x: Syscall) {
    || x.SysOpen? || x.SysFcntl? || x.SysFstat? || x.SysMmap? || x.SysMmap2?
    || x.SysSendto? || x.SysSocket? || x.SysSocketcall?
  }

  /** The entries that are there only if the platform has the call. */
  predicate Conditional(x: Syscall) {
    x.SysTime? || x.SysMmap? || x.SysMmap2? || x.SysSendto? || x.SysSocket? || x.SysSocketcall?
  }

  /** Which calls a platform has and what numbers they go by, different ones for different calls. */
  datatype Platform = Platform(arch: word, has: Syscall -> bool, number: Syscall -> word)
  {
    ghost predicate Valid() {
      && (forall x :: !Conditional(x) ==> has(x))
      && (forall x, y :: has(x) && has(y) && number(x) == number(y) ==> x == y)
    }
  }

  function RuleFor(p: Platform, x: Syscall): (rule: Rule)
    ensures rule.Valid() && rule.nr == p.number(x)
  {
    if Denied(x) then Deny(p.number(x), EINVAL) else Allow(p.number(x))
  }

  /** The rules as the preprocessor leaves them. */
  function Table(p: Platform, entries: seq<Syscall>): (rules: seq<Rule>)
    ensures Rules(rules) && |rules| <= |entries|
  {
    if entries == [] then []
    else if p.has(entries[0]) then [RuleFor(p, entries[0])] + Table(p, entries[1..])
    else Table(p, entries[1..])
  }

  /** A call the platform has gets the verdict of its own entry. */
  lemma {:induction false} TableDecides(p: Platform, entries: seq<Syscall>, x: Syscall)
    requires p.Valid() && x in entries && p.has(x)
    ensures Policy(Table(p, entries), p.number(x)) == Verdict(RuleFor(p, x))
  {
    if entries[0] != x { TableDecides(p, entries[1..], x); }
  }

  lemma {:induction false} TableKills(p: Platform, entries: seq<Syscall>, nr: word)
    requires forall x :: p.has(x) ==> p.number(x) != nr
    ensures Policy(Table(p, entries), nr) == RET_KILL
  {
    if entries != [] { TableKills(p, entries[1..], nr); }
  }

  lemma EveryCallHasAnEntry(x: Syscall)
    ensures x in Entries
  {
    var i := match x
      case SysRead => 0 case SysWrite => 1 case SysPwritev => 2 case SysSettimeofday => 3 case SysIoctl => 4
      case SysTime => 5 case SysLseek => 6 case SysClose => 7 case SysMunmap => 8 case SysExitGroup => 9
      case SysExit => 10 case SysOpen => 11 case SysFcntl => 12 case SysFstat => 13 case SysMmap => 14
      case SysMmap2 => 15 case SysSendto => 16 case SysSocket => 17 case SysSocketcall => 18;
    assert Entries[i] == x;
  }

  /** The calls a sandboxed setter can still make, and what every other call gets, on every platform. */
  lemma {:induction false} SetterSandbox(p: Platform, a: word, call: Call, x: Syscall)
    requires p.Valid()
    ensures var r := Interpret(Compile(p.arch, Table(p, Entries)), 0, a, call);
            && (call.arch != p.arch ==> r == Result(RET_KILL))
            && (call == Call(p.arch, p.number(x)) && p.has(x) ==>
                  r == Result(if Denied(x) then RET_ERRNO + EINVAL else RET_ALLOW))
            && (call.arch == p.arch && (forall y :: p.has(y) ==> p.number(y) != call.nr) ==> r == Result(RET_KILL))
    ensures Loadable(Compile(p.arch, Table(p, Entries)))
  {
    FilterImplementsPolicy(p.arch, Table(p, Entries), a, call);
    FilterIsLoadable(p.arch, Table(p, Entries));
    if call == Call(p.arch, p.number(x)) && p.has(x) {
      EveryCallHasAnEntry(x);
      TableDecides(p, Entries, x);
    } else if call.arch == p.arch && (forall y :: p.has(y) ==> p.number(y) != call.nr) {
      TableKills(p, Entries, call.nr);
    }
  }

  /** What a setter needs once it runs. */
  const MayCall: set<Syscall> :=
    {SysRead, SysWrite, SysPwritev, SysSettimeofday, SysIoctl, SysTime, SysLseek, SysClose, SysMunmap,
     SysExitGroup, SysExit}

  /** What the C library may try and is told to do without. */
  const MayNotCall: set<Syscall> :=
    {SysOpen, SysFcntl, SysFstat, SysMmap, SysMmap2, SysSendto, SysSocket, SysSocketcall}

  /** The table by name and by number: 0x7fff0000 allows, 0x00050016 is an EINVAL, 0 kills. */
  lemma {:induction false} SetterCalls(p: Platform, a: word, call: Call, x: Syscall)
    requires p.Valid()
    ensures var r := Interpret(Compile(p.arch, Table(p, Entries)), 0, a, call);
            && (call == Call(p.arch, p.number(x)) && p.has(x) ==>
                  && (x in MayCall ==> r == Result(0x7fff_0000))
                  && (x in MayNotCall ==> r == Result(0x0005_0016)))
            && (call.arch != p.arch || (forall y :: p.has(y) ==> p.number(y) != call.nr) ==> r == Result(0))
    ensures forall y :: y in MayCall || y in MayNotCall
    ensures forall y :: y !in {SysTime, SysMmap, SysMmap2, SysSendto, SysSocket, SysSocketcall} ==> p.has(y)
  {
    SetterSandbox(p, a, call, x);
    EveryCallIsListed(x);
    forall y ensures y in MayCall || y in MayNotCall { EveryCallIsListed(y); }
  }

  lemma EveryCallIsListed(x: Syscall)
    ensures x in MayCall <==> !Denied(x)
    ensures x in MayNotCall <==> Denied(x)
  {
    match x {
      case SysRead => case SysWrite => case SysPwritev => case SysSettimeofday => case SysIoctl => case SysTime =>
      case SysLseek => case SysClose => case SysMunmap => case SysExitGroup => case SysExit => case SysOpen =>
      case SysFcntl => case SysFstat => case SysMmap => case SysMmap2 => case SysSendto => case SysSocket =>
      case SysSocketcall =>
    }
  }
}
