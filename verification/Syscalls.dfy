/**
 System call marshalling (scripts/gen_syscalls.py). The generator writes two pieces of C for
 every call: one packs the arguments into at most six registers, the other unpacks them. Here
 an expression of that C is a value, and evaluating it gives a machine word.
 */
module Syscalls {

  const WORDS := 0x1_0000_0000

  /** `wide` says that the type is one of `types64`. */
  datatype Type = Type(wide: bool)

  /** An rvalue of the packing code: half of a split argument, an argument, or an address. */
  datatype Expr = Lo(parm: nat) | Hi(parm: nat) | Whole(arg: nat) | RetPtr | MorePtr

  /** An rvalue of the unpacking code: a register, or an element of the array behind the last. */
  datatype Rval = Arg(num: nat) | More(index: nat)

  /** How the unpacking code gets argument `arg`: from `parm[num]` or from word `num`. */
  datatype Vrfy = Vrfy(arg: nat, num: nat, split: bool)

  /** `parm` number k of the unpacking code rebuilds argument `arg` from words `word` and `word + 1`. */
  datatype SplitParm = SplitParm(arg: nat, word: nat)

  predicate NeedSplit(longRegisters: bool, t: Type) {
    !longRegisters && t.wide
  }

  // ----- What the two loops build ---------------------------------------------------------

  /** The arguments among the first `n` that are split, in order. */
  function Splits(long: bool, types: seq<Type>, n: nat): seq<nat>
    requires n <= |types|
  {
    if n == 0 then []
    else Splits(long, types, n - 1) + if NeedSplit(long, types[n - 1]) then [n - 1] else []
  }

  function Packed(long: bool, types: seq<Type>, n: nat): seq<Expr>
    requires n <= |types|
  {
    if n == 0 then []
    else
      var k := |Splits(long, types, n - 1)|;
      Packed(long, types, n - 1) + if NeedSplit(long, types[n - 1]) then [Lo(k), Hi(k)] else [Whole(n - 1)]
  }

  /** Where the words of argument `i` start. */
  function WordOf(long: bool, types: seq<Type>, i: nat): nat
    requires i <= |types|
  {
    if i == 0 then 0 else WordOf(long, types, i - 1) + if NeedSplit(long, types[i - 1]) then 2 else 1
  }

  function VrfyParm(long: bool, types: seq<Type>, i: nat): Vrfy
    requires i < |types|
  {
    if NeedSplit(long, types[i]) then Vrfy(i, |Splits(long, types, i)|, true)
    else Vrfy(i, WordOf(long, types, i), false)
  }

  /** All marshalled words, with the return value's address last if it is split. */
  function AllPacked(long: bool, ret: Type, types: seq<Type>): seq<Expr> {
    Packed(long, types, |types|) + if NeedSplit(long, ret) then [RetPtr] else []
  }

  /** mrsh_rval */
  function MrshRval(num: nat, total: nat): Rval {
    if num < 5 || total <= 6 then Arg(num) else More(num - 5)
  }

  /** The packing code: up to six words in registers, or five and the address of an array of the rest. */
  predicate Packs(long: bool, ret: Type, types: seq<Type>, regs: seq<Expr>, more: seq<Expr>, splitArgs: seq<nat>) {
    var all := AllPacked(long, ret, types);
    && splitArgs == Splits(long, types, |types|)
    && regs == (if |all| > 6 then all[..5] + [MorePtr] else all)
    && more == if |all| > 6 then all[5..] else []
  }

  predicate SplitParmOk(long: bool, types: seq<Type>, k: nat, s: SplitParm) {
    && k < |Splits(long, types, |types|)| && s.arg == Splits(long, types, |types|)[k]
    && s.arg < |types| && s.word == WordOf(long, types, s.arg)
  }

  /** The unpacking code: how many words there are and where each argument is among them. */
  predicate Unpacks(long: bool, ret: Type, types: seq<Type>, nmrsh: nat, vrfyParms: seq<Vrfy>,
                    splitParms: seq<SplitParm>) {
    && nmrsh == |AllPacked(long, ret, types)|
    && |vrfyParms| == |types| && (forall i | 0 <= i < |types| :: vrfyParms[i] == VrfyParm(long, types, i))
    && |splitParms| == |Splits(long, types, |types|)|
    && forall k | 0 <= k < |splitParms| :: SplitParmOk(long, types, k, splitParms[k])
  }

  // ----- The generator --------------------------------------------------------------------

  /** wrapper_defs: the registers, the overflow array, and the arguments put into `parm` unions */
  method WrapperDefs(long: bool, ret: Type, types: seq<Type>)
    returns (regs: seq<Expr>, more: seq<Expr>, splitArgs: seq<nat>)
    ensures Packs(long, ret, types, regs, more, splitArgs)
  {
    var mrshArgs: seq<Expr> := [];
    var nsplit := 0;
    splitArgs := [];
    for i := 0 to |types|
      invariant splitArgs == Splits(long, types, i) && nsplit == |splitArgs|
      invariant mrshArgs == Packed(long, types, i)
    {
      if NeedSplit(long, types[i]) {
        splitArgs := splitArgs + [i];
        mrshArgs := mrshArgs + [Lo(nsplit)];
        mrshArgs := mrshArgs + [Hi(nsplit)];
        nsplit := nsplit + 1;
      } else {
        mrshArgs := mrshArgs + [Whole(i)];
      }
    }
    if NeedSplit(long, ret) {
      mrshArgs := mrshArgs + [RetPtr];
    }
    if |mrshArgs| > 6 {
      regs, more := mrshArgs[..5] + [MorePtr], mrshArgs[5..];
    } else {
      regs, more := mrshArgs, [];
    }
  }

  /** marshall_defs: the number of words and where the unpacking code finds each argument */
  method MarshallDefs(long: bool, ret: Type, types: seq<Type>)
    returns (nmrsh: nat, vrfyParms: seq<Vrfy>, splitParms: seq<SplitParm>)
    ensures Unpacks(long, ret, types, nmrsh, vrfyParms, splitParms)
  {
    nmrsh, vrfyParms, splitParms := 0, [], [];
    for i := 0 to |types|
      invariant nmrsh == WordOf(long, types, i)
      invariant |vrfyParms| == i && forall j | 0 <= j < i :: vrfyParms[j] == VrfyParm(long, types, j)
      invariant |splitParms| == |Splits(long, types, i)|
      invariant forall k | 0 <= k < |splitParms| ::
                  splitParms[k].arg == Splits(long, types, i)[k] && splitParms[k].arg < i
                  && splitParms[k].word == WordOf(long, types, splitParms[k].arg)
    {
      if NeedSplit(long, types[i]) {
        vrfyParms := vrfyParms + [Vrfy(i, |splitParms|, true)];
        splitParms := splitParms + [SplitParm(i, nmrsh)];
        nmrsh := nmrsh + 2;
      } else {
        vrfyParms := vrfyParms + [Vrfy(i, nmrsh, false)];
        nmrsh := nmrsh + 1;
      }
    }
    PackedLength(long, types, |types|);
    if NeedSplit(long, ret) {
      nmrsh := nmrsh + 1;
    }
  }

  // ----- Positions ------------------------------------------------------------------------

  lemma {:induction false} PackedLength(long: bool, types: seq<Type>, n: nat)
    requires n <= |types|
    ensures |Packed(long, types, n)| == WordOf(long, types, n)
  {
    if n > 0 {
      PackedLength(long, types, n - 1);
    }
  }

  lemma {:induction false} SplitsGrow(long: bool, types: seq<Type>, i: nat, n: nat)
    requires i <= n <= |types|
    ensures Splits(long, types, i) <= Splits(long, types, n)
  {
    if i < n {
      SplitsGrow(long, types, i, n - 1);
    }
  }

  lemma {:induction false} PackedGrows(long: bool, types: seq<Type>, i: nat, n: nat)
    requires i <= n <= |types|
    ensures Packed(long, types, i) <= Packed(long, types, n)
  {
    if i < n {
      PackedGrows(long, types, i, n - 1);
    }
  }

  /** The words of argument `i` are where the unpacking code will look for them. */
  lemma {:induction false} WordsOfArg(long: bool, ret: Type, types: seq<Type>, i: nat)
    requires i < |types|
    ensures var all, w, k := AllPacked(long, ret, types), WordOf(long, types, i), |Splits(long, types, i)|;
            if NeedSplit(long, types[i]) then
              w + 1 < |all| && all[w] == Lo(k) && all[w + 1] == Hi(k)
              && k < |Splits(long, types, |types|)| && Splits(long, types, |types|)[k] == i
            else w < |all| && all[w] == Whole(i)
  {
    PackedLength(long, types, i);
    PackedGrows(long, types, i + 1, |types|);
    SplitsGrow(long, types, i + 1, |types|);
    assert Packed(long, types, i + 1) <= AllPacked(long, ret, types);
    var k := |Splits(long, types, i)|;
    if NeedSplit(long, types[i]) {
      assert Splits(long, types, i + 1)[k] == i;
      assert Packed(long, types, i + 1)[WordOf(long, types, i)] == Lo(k);
      assert Packed(long, types, i + 1)[WordOf(long, types, i) + 1] == Hi(k);
    } else {
      assert Packed(long, types, i + 1)[WordOf(long, types, i)] == Whole(i);
    }
  }

  /** How many of the first `n` arguments are wide */
  function WideArgs(types: seq<Type>, n: nat): nat
    requires n <= |types|
  {
    if n == 0 then 0 else WideArgs(types, n - 1) + if types[n - 1].wide then 1 else 0
  }

  /**
   Only 64-bit values on 32-bit registers take two words: there is one word for each argument, one
   more for each wide one, and one for the address of a wide return value; with long registers there
   is one for each argument and no more.
   */
  lemma {:induction false} WordCount(long: bool, ret: Type, types: seq<Type>)
    ensures |AllPacked(long, ret, types)| ==
            |types| + if long then 0 else WideArgs(types, |types|) + if ret.wide then 1 else 0
    ensures long ==> forall i | 0 <= i < |types| :: AllPacked(long, ret, types)[i] == Whole(i)
  {
    PackedLength(long, types, |types|);
    WordsBefore(long, types, |types|);
    if long {
      forall i | 0 <= i < |types| ensures AllPacked(long, ret, types)[i] == Whole(i) {
        WordsOfArg(long, ret, types, i);
        WordsBefore(long, types, i);
      }
    }
  }

  lemma {:induction false} WordsBefore(long: bool, types: seq<Type>, n: nat)
    requires n <= |types|
    ensures WordOf(long, types, n) == n + if long then 0 else WideArgs(types, n)
  {
    if n > 0 {
      WordsBefore(long, types, n - 1);
    }
  }

  // ----- Calling through the generated code -----------------------------------------------

  /** The word an rvalue of the packing code has; a split argument has two halves. */
  function Eval(e: Expr, args: seq<nat>, splitArgs: seq<nat>, retPtr: nat, morePtr: nat): nat {
    match e
    case Lo(k) => if k < |splitArgs| && splitArgs[k] < |args| then args[splitArgs[k]] % WORDS else 0
    case Hi(k) => if k < |splitArgs| && splitArgs[k] < |args| then args[splitArgs[k]] / WORDS else 0
    case Whole(i) => if i < |args| then args[i] else 0
    case RetPtr => retPtr
    case MorePtr => morePtr
  }

  /** What a call puts in its registers, and in the overflow array. */
  datatype Frame = Frame(regs: seq<nat>, more: seq<nat>)

  function EvalAll(es: seq<Expr>, args: seq<nat>, splitArgs: seq<nat>, retPtr: nat, morePtr: nat): (r: seq<nat>)
    ensures |r| == |es| && forall i | 0 <= i < |es| :: r[i] == Eval(es[i], args, splitArgs, retPtr, morePtr)
  {
    seq(|es|, i requires 0 <= i < |es| => Eval(es[i], args, splitArgs, retPtr, morePtr))
  }

  function Invoke(regs: seq<Expr>, more: seq<Expr>, args: seq<nat>, splitArgs: seq<nat>, retPtr: nat,
                  morePtr: nat): Frame {
    Frame(EvalAll(regs, args, splitArgs, retPtr, morePtr), EvalAll(more, args, splitArgs, retPtr, morePtr))
  }

  /** An rvalue of the unpacking code stays within the registers and the array that were set up. */
  predicate Readable(f: Frame, r: Rval) {
    match r
    case Arg(num) => num < |f.regs|
    case More(index) => index < |f.more|
  }

  function Read(f: Frame, r: Rval): nat
    requires Readable(f, r)
  {
    match r
    case Arg(num) => f.regs[num]
    case More(index) => f.more[index]
  }

  /** Every word is read back from where it was put. */
  lemma {:induction false} WordArrives(long: bool, ret: Type, types: seq<Type>, regs: seq<Expr>, more: seq<Expr>,
                                       splitArgs: seq<nat>, args: seq<nat>, retPtr: nat, morePtr: nat, w: nat)
    requires Packs(long, ret, types, regs, more, splitArgs) && w < |AllPacked(long, ret, types)|
    ensures var all, f := AllPacked(long, ret, types), Invoke(regs, more, args, splitArgs, retPtr, morePtr);
            var r := MrshRval(w, |all|);
            Readable(f, r) && Read(f, r) == Eval(all[w], args, splitArgs, retPtr, morePtr)
  {
  }

  /** The words the unpacking code reads for an argument. */
  function WordsRead(v: Vrfy, splitParms: seq<SplitParm>, nmrsh: nat): seq<Rval>
    requires v.split ==> v.num < |splitParms|
  {
    if v.split then
      var w := splitParms[v.num].word;
      [MrshRval(w, nmrsh), MrshRval(w + 1, nmrsh)]
    else [MrshRval(v.num, nmrsh)]
  }

  /** What those words make when put together, the first as the lower half. */
  function Joined(words: seq<nat>): nat {
    if |words| == 2 then words[0] + WORDS * words[1] else if |words| == 1 then words[0] else 0
  }

  predicate AllReadable(f: Frame, rs: seq<Rval>) {
    forall i | 0 <= i < |rs| :: Readable(f, rs[i])
  }

  function ReadAll(f: Frame, rs: seq<Rval>): seq<nat>
    requires AllReadable(f, rs)
  {
    seq(|rs|, i requires 0 <= i < |rs| => Read(f, rs[i]))
  }

  /**
   For the code generated for any signature and any arguments: the verifier gets the caller's
   arguments in order, and no read strays from the registers and the array that were set up.
   */
  lemma {:induction false} RoundTrip(long: bool, ret: Type, types: seq<Type>,
                                     regs: seq<Expr>, more: seq<Expr>, splitArgs: seq<nat>,
                                     nmrsh: nat, vrfyParms: seq<Vrfy>, splitParms: seq<SplitParm>,
                                     args: seq<nat>, retPtr: nat, morePtr: nat, i: nat)
    requires Packs(long, ret, types, regs, more, splitArgs)
    requires Unpacks(long, ret, types, nmrsh, vrfyParms, splitParms)
    requires |args| == |types| && i < |types|
    ensures vrfyParms[i].arg == i && (vrfyParms[i].split ==> vrfyParms[i].num < |splitParms|)
    ensures var f := Invoke(regs, more, args, splitArgs, retPtr, morePtr);
            var rs := WordsRead(vrfyParms[i], splitParms, nmrsh);
            AllReadable(f, rs) && Joined(ReadAll(f, rs)) == args[i]
  {
    hide Packs, Packed, WordOf, Splits, AllPacked, Invoke;
    WordsOfArg(long, ret, types, i);
    var w, k, n := WordOf(long, types, i), |Splits(long, types, i)|, nmrsh;
    var f := Invoke(regs, more, args, splitArgs, retPtr, morePtr);
    SplitArgsOf(long, ret, types, regs, more, splitArgs);
    assert vrfyParms[i] == VrfyParm(long, types, i);
    WordArrives(long, ret, types, regs, more, splitArgs, args, retPtr, morePtr, w);
    if NeedSplit(long, types[i]) {
      assert SplitParmOk(long, types, k, splitParms[k]);
      WordArrives(long, ret, types, regs, more, splitArgs, args, retPtr, morePtr, w + 1);
      assert WordsRead(vrfyParms[i], splitParms, nmrsh) == [MrshRval(w, n), MrshRval(w + 1, n)];
    }
  }

  lemma {:induction false} SplitArgsOf(long: bool, ret: Type, types: seq<Type>, regs: seq<Expr>, more: seq<Expr>,
                                       splitArgs: seq<nat>)
    requires Packs(long, ret, types, regs, more, splitArgs)
    ensures splitArgs == Splits(long, types, |types|)
  {
  }

  /** A split return value goes to the address the caller passed. */
  lemma {:induction false} ReturnPointerArrives(long: bool, ret: Type, types: seq<Type>,
                                                regs: seq<Expr>, more: seq<Expr>, splitArgs: seq<nat>,
                                                args: seq<nat>, retPtr: nat, morePtr: nat)
    requires Packs(long, ret, types, regs, more, splitArgs) && NeedSplit(long, ret)
    ensures var f, n := Invoke(regs, more, args, splitArgs, retPtr, morePtr), |AllPacked(long, ret, types)|;
            n > 0 && Readable(f, MrshRval(n - 1, n)) && Read(f, MrshRval(n - 1, n)) == retPtr
  {
  }

  /** With 32-bit registers every word fits one when arguments fit their types, and six are enough. */
  lemma {:induction false} FitsRegisters(ret: Type, types: seq<Type>, regs: seq<Expr>, more: seq<Expr>,
                                         splitArgs: seq<nat>, args: seq<nat>, retPtr: nat, morePtr: nat, i: nat)
    requires Packs(false, ret, types, regs, more, splitArgs)
    requires |args| == |types| && retPtr < WORDS && morePtr < WORDS
    requires forall k | 0 <= k < |types| :: args[k] < if types[k].wide then WORDS * WORDS else WORDS
    ensures var f := Invoke(regs, more, args, splitArgs, retPtr, morePtr);
            |f.regs| <= 6 && (i < |f.regs| ==> f.regs[i] < WORDS) && (i < |f.more| ==> f.more[i] < WORDS)
  {
    var all := AllPacked(false, ret, types);
    forall w | 0 <= w < |all| ensures Eval(all[w], args, splitArgs, retPtr, morePtr) < WORDS {
      WordKind(false, types, |types|, w);
      if all[w].Hi? && all[w].parm < |splitArgs| && splitArgs[all[w].parm] < |args| {
        HalfFits(args[splitArgs[all[w].parm]]);
      }
    }
  }

  lemma {:induction false} HalfFits(v: nat)
    ensures v < WORDS * WORDS ==> v / WORDS < WORDS
  {
  }

  /** Only arguments that need no splitting are passed whole. */
  lemma {:induction false} WordKind(long: bool, types: seq<Type>, n: nat, w: nat)
    requires n <= |types|
    ensures w < |Packed(long, types, n)| ==>
              var e := Packed(long, types, n)[w];
              e.Lo? || e.Hi? || (e.Whole? && e.arg < n && !NeedSplit(long, types[e.arg]))
  {
    if n > 0 {
      WordKind(long, types, n - 1, w);
    }
  }

  // ----- The handler's check of the array -------------------------------------------------

  /** How many words of the array the handler asks the memory check about */
  function CheckedWords(nmrsh: nat): nat {
    if nmrsh > 6 then nmrsh - 6 else 0
  }

  predicate Covered(r: Rval, nmrsh: nat) {
    match r
    case Arg(_) => true
    case More(index) => index < CheckedWords(nmrsh)
  }

  predicate AllCovered(rs: seq<Rval>, nmrsh: nat) {
    forall i | 0 <= i < |rs| :: Covered(rs[i], nmrsh)
  }

  lemma {:induction false} WordsGrow(long: bool, types: seq<Type>, i: nat, n: nat)
    requires i <= n <= |types|
    ensures WordOf(long, types, i) + (n - i) <= WordOf(long, types, n)
  {
    if i < n {
      WordsGrow(long, types, i, n - 1);
    }
  }

  /**
   The check covers the words of every argument but the one whose word is the last of the array:
   that is the last argument, or the address of a split return value.
   */
  lemma {:induction false} CheckCoversAllButLast(long: bool, ret: Type, types: seq<Type>, nmrsh: nat,
                                                 vrfyParms: seq<Vrfy>, splitParms: seq<SplitParm>, i: nat)
    requires Unpacks(long, ret, types, nmrsh, vrfyParms, splitParms) && i < |types|
    ensures vrfyParms[i].split ==> vrfyParms[i].num < |splitParms|
    ensures AllCovered(WordsRead(vrfyParms[i], splitParms, nmrsh), nmrsh)
            <==> nmrsh <= 6 || i + 1 < |types| || NeedSplit(long, ret)
    ensures NeedSplit(long, ret) ==> nmrsh > 0 && (Covered(MrshRval(nmrsh - 1, nmrsh), nmrsh) <==> nmrsh <= 6)
  {
    WordsOfArg(long, ret, types, i);
    PackedLength(long, types, |types|);
    WordsGrow(long, types, i + 1, |types|);
    hide Packed, Splits;
    assert vrfyParms[i] == VrfyParm(long, types, i);
    var rs := WordsRead(vrfyParms[i], splitParms, nmrsh);
    if NeedSplit(long, types[i]) {
      assert SplitParmOk(long, types, vrfyParms[i].num, splitParms[vrfyParms[i].num]);
    }
    var last := WordOf(long, types, i + 1) - 1;
    assert rs[|rs| - 1] == MrshRval(last, nmrsh);
    assert nmrsh > 6 && last == nmrsh - 1 ==> !Covered(rs[|rs| - 1], nmrsh);
  }

  /** Seven arguments of one word each: the seventh is read from a word that was not checked. */
  lemma {:induction false} SeventhWordNotCovered()
    ensures MrshRval(6, 7) == More(1) && CheckedWords(7) == 1 && !Covered(MrshRval(6, 7), 7)
  {
  }
}
