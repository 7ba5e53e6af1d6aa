// Macro byte code: the assembler macros of action_macro.h and the interpreter
// of action_macro.c on values.
module Macros {
  import opened KeyList
  import opened KeyboardState
  import opened ModBits
  import opened Actions

  type Byte = bv8

  // What one macro instruction does.  The short forms are the one-byte codes.
  datatype Command =
    | Down(code: Code)
    | Up(code: Code)
    | ShortDown(code: Code)
    | ShortUp(code: Code)
    | Wait(ms: Byte)
    | Interval(ms: Byte)
    | Store
    | Restore
    | Clear

  const END: Byte := 0x00
  const KEY_DOWN: Byte := 0x01
  const KEY_UP: Byte := 0x02
  const WAIT: Byte := 0x74
  const INTERVAL: Byte := 0x75
  const MOD_STORE: Byte := 0x76
  const MOD_RESTORE: Byte := 0x77
  const MOD_CLEAR: Byte := 0x78
  const DELAY_TIME: Byte := 7

  predicate Encodable(c: Command) {
    c.ShortDown? || c.ShortUp? ==> 0x04 <= c.code <= 0x73
  }

  function Encode(c: Command): seq<Byte> {
    match c
    case Down(code) => [KEY_DOWN, code]
    case Up(code) => [KEY_UP, code]
    case ShortDown(code) => [code]
    case ShortUp(code) => [code | 0x80]
    case Wait(ms) => [WAIT, ms]
    case Interval(ms) => [INTERVAL, ms]
    case Store => [MOD_STORE]
    case Restore => [MOD_RESTORE]
    case Clear => [MOD_CLEAR]
  }

  function Assemble(cs: seq<Command>): seq<Byte> {
    if cs == [] then [] else Encode(cs[0]) + Assemble(cs[1..])
  }

  // The keyboard, the stored modifiers and the waits so far, in milliseconds.
  datatype Player = Player(kb: Kbd, stored: bv8, waits: seq<Byte>) {
    // A report update followed by the inter-command delay.
    function Then(kb': Kbd): Player { this.(kb := kb', waits := waits + [DELAY_TIME]) }
  }

  function Exec(m: Player, c: Command): Player {
    match c
    case Down(code) =>
      m.Then(if IsMod(code) then m.kb.AddWeakMods(ModBit(code)).Send() else RegisterCode(m.kb, code))
    case Up(code) =>
      m.Then(if IsMod(code) then m.kb.DelWeakMods(ModBit(code)).Send() else UnregisterCode(m.kb, code))
    case ShortDown(code) => m.Then(RegisterCode(m.kb, code))
    case ShortUp(code) => m.Then(UnregisterCode(m.kb, code))
    case Wait(ms) => m.(waits := m.waits + [ms])
    case Interval(ms) => m.(waits := m.waits + [ms])
    case Store => m.(stored := m.kb.realMods)
    case Restore => m.Then(m.kb.(realMods := m.stored).Send())
    case Clear => m.Then(m.kb.(realMods := 0).Send())
  }

  function ExecAll(m: Player, cs: seq<Command>): Player
    decreases cs
  {
    if cs == [] then m else ExecAll(Exec(m, cs[0]), cs[1..])
  }

  // The interpreter on the bytes from p on.  A macro that runs off its end is
  // not one; the model stops there.
  function Play(bytes: seq<Byte>, p: nat, m: Player): Player
    requires p <= |bytes|
    decreases |bytes| - p
  {
    if p == |bytes| then m
    else
      var b := bytes[p];
      if b == KEY_DOWN || b == KEY_UP || b == WAIT || b == INTERVAL then
        if p + 1 == |bytes| then m
        else
          var arg := bytes[p + 1];
          var c := if b == KEY_DOWN then Down(arg) else if b == KEY_UP then Up(arg)
                   else if b == WAIT then Wait(arg) else Interval(arg);
          Play(bytes, p + 2, Exec(m, c))
      else if b == MOD_STORE then Play(bytes, p + 1, Exec(m, Store))
      else if b == MOD_RESTORE then Play(bytes, p + 1, Exec(m, Restore))
      else if b == MOD_CLEAR then Play(bytes, p + 1, Exec(m, Clear))
      else if 0x04 <= b <= 0x73 then Play(bytes, p + 1, Exec(m, ShortDown(b)))
      else if 0x84 <= b <= 0xF3 then Play(bytes, p + 1, Exec(m, ShortUp(b & 0x7F)))
      else m
  }

  lemma ShortUpByte(code: Code)
    requires 0x04 <= code <= 0x73
    ensures 0x84 <= code | 0x80 <= 0xF3 && (code | 0x80) & 0x7F == code
  {
  }

  lemma PlayOne(bytes: seq<Byte>, p: nat, m: Player, c: Command)
    requires Encodable(c) && p + |Encode(c)| <= |bytes| && bytes[p..p + |Encode(c)|] == Encode(c)
    ensures Play(bytes, p, m) == Play(bytes, p + |Encode(c)|, Exec(m, c))
  {
    hide Exec;
    var e := Encode(c);
    assert e[0] == bytes[p..p + |e|][0] == bytes[p];
    if |e| == 2 {
      assert e[1] == bytes[p..p + |e|][1] == bytes[p + 1];
    }
    if c.ShortUp? {
      ShortUpByte(c.code);
    }
  }

  lemma Middle(before: seq<Byte>, e: seq<Byte>, rest: seq<Byte>)
    ensures (before + e + rest)[|before|..|before| + |e|] == e
  {
  }

  lemma PlayEnd(bytes: seq<Byte>, p: nat, m: Player)
    requires p < |bytes| && bytes[p] == END
    ensures Play(bytes, p, m) == m
  {
    hide Exec;
  }

  // Playing an assembled program performs exactly its commands and stops at
  // END, whatever follows.
  lemma {:induction false} PlaysProgram(cs: seq<Command>, before: seq<Byte>, after: seq<Byte>, m: Player)
    requires forall i :: 0 <= i < |cs| ==> Encodable(cs[i])
    ensures Play(before + Assemble(cs) + [END] + after, |before|, m) == ExecAll(m, cs)
    decreases cs
  {
    hide Exec, Play, Encode, Encodable;
    var bytes := before + Assemble(cs) + [END] + after;
    if cs == [] {
      PlayEnd(bytes, |before|, m);
    } else {
      var e, rest := Encode(cs[0]), Assemble(cs[1..]) + [END] + after;
      Middle(before, e, rest);
      assert bytes == before + e + rest;
      PlayOne(bytes, |before|, m, cs[0]);
      PlaysProgram(cs[1..], before + e, after, Exec(m, cs[0]));
      assert bytes == (before + e) + Assemble(cs[1..]) + [END] + after;
    }
  }

  // TYPE(key) and the modifier wrappers SFT_, CTL_, ALT_, AGR_ around programs.
  datatype Prog = Type(code: Code) | Wrap(modifier: Code, body: seq<Prog>)

  predicate WellFormed(p: Prog) {
    p.Wrap? ==> IsMod(p.modifier) && forall q :: q in p.body ==> WellFormed(q)
  }

  function Compile(p: Prog): seq<Command>
    decreases p, 0
  {
    match p
    case Type(code) => [Down(code), Up(code)]
    case Wrap(modifier, body) => [Down(modifier)] + CompileAll(body) + [Up(modifier)]
  }

  function CompileAll(ps: seq<Prog>): seq<Command>
    decreases ps, 1
  {
    if ps == [] then [] else Compile(ps[0]) + CompileAll(ps[1..])
  }

  // The modifier bits and the keys a program uses.
  function ModsOf(p: Prog): bv8
    decreases p, 0
  {
    match p
    case Type(code) => if IsMod(code) then ModBit(code) else 0 as bv8
    case Wrap(modifier, body) => Join(UsedMods(body), ModBit(modifier))
  }

  function UsedMods(ps: seq<Prog>): bv8
    decreases ps, 1
  {
    if ps == [] then 0 as bv8 else Join(ModsOf(ps[0]), UsedMods(ps[1..]))
  }

  function KeysOf(p: Prog): seq<Code>
    decreases p, 0
  {
    match p
    case Type(code) => if IsKey(code) then [code] else []
    case Wrap(_, body) => UsedKeys(body)
  }

  function UsedKeys(ps: seq<Prog>): seq<Code>
    decreases ps, 1
  {
    if ps == [] then [] else KeysOf(ps[0]) + UsedKeys(ps[1..])
  }

  // The key list after typing the keys one after the other.
  function TypeAll(l: seq<Code>, ks: seq<Code>, cap: nat): seq<Code>
    requires cap > 0
    decreases ks
  {
    if ks == [] then l else TypeAll(Del(Add(l, ks[0], cap), ks[0]), ks[1..], cap)
  }

  lemma {:induction false} ExecConcat(m: Player, a: seq<Command>, b: seq<Command>)
    ensures ExecAll(m, a + b) == ExecAll(ExecAll(m, a), b)
    decreases a
  {
    hide Exec;
    if a == [] {
      assert a + b == b;
    } else {
      assert (a + b)[1..] == a[1..] + b;
      ExecConcat(Exec(m, a[0]), a[1..], b);
    }
  }

  lemma {:induction false} TypeConcat(l: seq<Code>, a: seq<Code>, b: seq<Code>, cap: nat)
    requires cap > 0
    ensures TypeAll(l, a + b, cap) == TypeAll(TypeAll(l, a, cap), b, cap)
    decreases a
  {
    hide Add, Del;
    if a == [] {
      assert a + b == b;
    } else {
      assert (a + b)[1..] == a[1..] + b;
      TypeConcat(Del(Add(l, a[0], cap), a[0]), a[1..], b, cap);
    }
  }

  // The effect of a program on the report: its modifiers are out, its keys
  // have been typed, real modifiers are as before.
  predicate Effect(kb: Kbd, kb': Kbd, mods: bv8, keys: seq<Code>) {
    && kb'.cap == kb.cap && kb.cap > 0
    && kb'.weakMods == Without(kb.weakMods, mods) && kb'.realMods == kb.realMods
    && kb'.keys == TypeAll(kb.keys, keys, kb.cap)
  }

  lemma EffectTrans(a: Kbd, b: Kbd, c: Kbd, m: bv8, n: bv8, ks: seq<Code>, ls: seq<Code>)
    requires Effect(a, b, m, ks) && Effect(b, c, n, ls)
    ensures Effect(a, c, Join(m, n), ks + ls)
  {
    hide TypeAll, Join, Without;
    TypeConcat(a.keys, ks, ls, a.cap);
    WithoutLaws(a.weakMods, m, n);
  }

  lemma TypeEffect(m: Player, code: Code)
    requires m.kb.cap > 0
    ensures Effect(m.kb, ExecAll(m, [Down(code), Up(code)]).kb,
                   if IsMod(code) then ModBit(code) else 0, if IsKey(code) then [code] else [])
  {
    hide Add, Del, Join, Without, ModBit;
    var m1 := Exec(m, Down(code));
    assert [Down(code), Up(code)][1..] == [Up(code)] && [Up(code)][1..] == [];
    assert ExecAll(m1, [Up(code)]) == Exec(m1, Up(code));
    JoinNothing(m.kb.weakMods);
    JoinWithout(m.kb.weakMods, ModBit(code));
    TypeNone(m.kb.keys, m.kb.cap);
    assert [code][1..] == [];
    TypeNone(Del(Add(m.kb.keys, code, m.kb.cap), code), m.kb.cap);
  }

  lemma WrapStart(m: Player, modifier: Code)
    requires IsMod(modifier)
    ensures var kb' := Exec(m, Down(modifier)).kb;
      kb'.weakMods == Join(m.kb.weakMods, ModBit(modifier)) && kb'.keys == m.kb.keys && kb'.cap == m.kb.cap
      && kb'.realMods == m.kb.realMods
    ensures var kb' := Exec(m, Up(modifier)).kb;
      kb'.weakMods == Without(m.kb.weakMods, ModBit(modifier)) && kb'.keys == m.kb.keys && kb'.cap == m.kb.cap
      && kb'.realMods == m.kb.realMods
  {
    hide Join, Without, ModBit;
  }

  lemma {:induction false} WrapEffect(m: Player, modifier: Code, body: seq<Prog>)
    requires m.kb.cap > 0 && IsMod(modifier) && forall q :: q in body ==> WellFormed(q)
    ensures Effect(m.kb, ExecAll(m, Compile(Wrap(modifier, body))).kb,
                   Join(UsedMods(body), ModBit(modifier)), UsedKeys(body))
    decreases body, 1
  {
    hide Exec, Join, Without, ModBit, TypeAll, UsedMods, UsedKeys, CompileAll, IsMod;
    var cs := CompileAll(body);
    var m1 := Exec(m, Down(modifier));
    var m2 := ExecAll(m1, cs);
    WrapStart(m, modifier);
    ProgramEffect(m1, body);
    WrapStart(m2, modifier);
    assert [Down(modifier)] + cs + [Up(modifier)] == [Down(modifier)] + (cs + [Up(modifier)]);
    assert ([Down(modifier)] + (cs + [Up(modifier)]))[1..] == cs + [Up(modifier)];
    ExecConcat(m1, cs, [Up(modifier)]);
    assert ExecAll(m2, [Up(modifier)]) == Exec(m2, Up(modifier)) by { assert [Up(modifier)][1..] == []; }
    WithoutLaws(m.kb.weakMods, ModBit(modifier), UsedMods(body));
  }

  // A program leaves the weak modifiers without the bits it used, the real
  // ones as they were, and the key list as after typing its keys.
  lemma {:induction false} ProgramEffect(m: Player, ps: seq<Prog>)
    requires m.kb.cap > 0 && forall q :: q in ps ==> WellFormed(q)
    ensures Effect(m.kb, ExecAll(m, CompileAll(ps)).kb, UsedMods(ps), UsedKeys(ps))
    decreases ps, 0
  {
    hide Exec, Join, Without, ModBit, TypeAll, IsMod, IsKey;
    if ps == [] {
      JoinNothing(m.kb.weakMods);
      TypeNone(m.kb.keys, m.kb.cap);
    } else {
      var m1 := ExecAll(m, Compile(ps[0]));
      assert ps[0] in ps && WellFormed(ps[0]);
      match ps[0] {
        case Type(code) => TypeEffect(m, code);
        case Wrap(modifier, body) => WrapEffect(m, modifier, body);
      }
      ExecConcat(m, Compile(ps[0]), CompileAll(ps[1..]));
      ProgramEffect(m1, ps[1..]);
      EffectTrans(m.kb, m1.kb, ExecAll(m1, CompileAll(ps[1..])).kb, ModsOf(ps[0]), UsedMods(ps[1..]),
                  KeysOf(ps[0]), UsedKeys(ps[1..]));
    }
  }

  lemma TypeNone(l: seq<Code>, cap: nat)
    requires cap > 0
    ensures TypeAll(l, [], cap) == l
  {
  }

  // None of the keys is down, and a slot is free for them.
  predicate KeysFree(l: seq<Code>, ks: seq<Code>, cap: nat) {
    (forall k :: k in ks ==> k !in l) && (ks != [] ==> |l| < cap)
  }

  lemma TypeOne(l: seq<Code>, k: Code, cap: nat)
    requires 0 < cap && |l| <= cap
    ensures var l' := Del(Add(l, k, cap), k);
      |l'| <= |l| && (l' == l <==> |l'| == |l|) && (l' == l <==> k !in l && |l| < cap)
  {
    hide Del;
    if k in l {
      DelShrinks(l, k);
    } else {
      AddDelRestores(l, k, cap);
    }
  }

  lemma {:induction false} TypingRestoresIff(l: seq<Code>, ks: seq<Code>, cap: nat)
    requires 0 < cap && |l| <= cap
    ensures |TypeAll(l, ks, cap)| <= |l|
    ensures TypeAll(l, ks, cap) == l <==> KeysFree(l, ks, cap)
    decreases ks
  {
    hide Add, Del;
    if ks != [] {
      var l' := Del(Add(l, ks[0], cap), ks[0]);
      TypeOne(l, ks[0], cap);
      TypingRestoresIff(l', ks[1..], cap);
      assert ks == [ks[0]] + ks[1..];
    }
  }

  // A macro of typed keys and modifier wrappers, played from its bytes, gives
  // back the key list exactly if none of its keys was down and a slot was
  // free, and the weak modifiers exactly if it used none that was set.
  lemma {:induction false} MacroRestoresIff(ps: seq<Prog>, after: seq<Byte>, m: Player)
    requires 0 < m.kb.cap && |m.kb.keys| <= m.kb.cap && forall q :: q in ps ==> WellFormed(q)
    ensures var kb' := Play(Assemble(CompileAll(ps)) + [END] + after, 0, m).kb;
      && (kb'.keys == m.kb.keys <==> KeysFree(m.kb.keys, UsedKeys(ps), m.kb.cap))
      && (kb'.weakMods == m.kb.weakMods <==> Apart(m.kb.weakMods, UsedMods(ps)))
      && kb'.realMods == m.kb.realMods
  {
    hide Exec, Apart, Without, Play, TypeAll, KeysFree;
    CompiledEncodable(ps);
    PlaysProgram(CompileAll(ps), [], after, m);
    assert [] + Assemble(CompileAll(ps)) == Assemble(CompileAll(ps));
    ProgramEffect(m, ps);
    TypingRestoresIff(m.kb.keys, UsedKeys(ps), m.kb.cap);
    JoinWithout(m.kb.weakMods, UsedMods(ps));
  }

  predicate AllEncodable(cs: seq<Command>) {
    forall i :: 0 <= i < |cs| ==> Encodable(cs[i])
  }

  lemma EncodableConcat(a: seq<Command>, b: seq<Command>)
    requires AllEncodable(a) && AllEncodable(b)
    ensures AllEncodable(a + b)
  {
  }

  lemma {:induction false} CompiledEncodable(ps: seq<Prog>)
    ensures AllEncodable(CompileAll(ps))
    decreases ps
  {
    if ps != [] {
      if ps[0].Wrap? {
        CompiledEncodable(ps[0].body);
        EncodableConcat([Down(ps[0].modifier)], CompileAll(ps[0].body));
        EncodableConcat([Down(ps[0].modifier)] + CompileAll(ps[0].body), [Up(ps[0].modifier)]);
      }
      CompiledEncodable(ps[1..]);
      EncodableConcat(Compile(ps[0]), CompileAll(ps[1..]));
    }
  }
}
