/** core_state_transition of core_state.c: a hand-written automaton that tells integers,
    floats and scientific notation apart. */
module Scanner {

  type Byte = bv8

  datatype Class = Nul | Comma | Digit | Sign | Dot | Exp | Other

  function Classify(c: Byte): Class {
    if c == 0 then Nul
    else if c == 0x2C then Comma
    else if 0x30 <= c && c <= 0x39 then Digit
    else if c == 0x2B || c == 0x2D then Sign
    else if c == 0x2E then Dot
    else if c == 0x45 || c == 0x65 then Exp
    else Other
  }

  /** The classes by the characters in them. */
  lemma Characters(c: Byte)
    ensures Classify(c) == Digit <==> '0' <= c as char <= '9'
    ensures Classify(c) == Sign <==> c as char == '+' || c as char == '-'
    ensures Classify(c) == Dot <==> c as char == '.'
    ensures Classify(c) == Exp <==> c as char == 'e' || c as char == 'E'
    ensures Classify(c) == Comma <==> c as char == ','
    ensures Classify(c) == Nul <==> c as char == '\0'
  {
  }

  datatype State = Start | Invalid | S1 | S2 | Int | Float | Exponent | Scientific

  const NUM_CORE_STATES := 8

  /** The number of a state in the enumeration. */
  function Index(s: State): (k: nat)
    ensures k < NUM_CORE_STATES
  {
    match s
    case Start => 0
    case Invalid => 1
    case S1 => 2
    case S2 => 3
    case Int => 4
    case Float => 5
    case Exponent => 6
    case Scientific => 7
  }

  // ---- the languages, without reference to the automaton

  predicate Digits(s: seq<Byte>) { forall i | 0 <= i < |s| :: Classify(s[i]) == Digit }

  /** What is left without a sign in front. */
  function Unsigned(s: seq<Byte>): seq<Byte> {
    if |s| > 0 && Classify(s[0]) == Sign then s[1..] else s
  }

  /** [+-]?[0-9]+ */
  predicate IsInt(s: seq<Byte>) { Unsigned(s) != [] && Digits(Unsigned(s)) }

  predicate DotAt(u: seq<Byte>, i: nat)
    requires i < |u|
  {
    Classify(u[i]) == Dot && Digits(u[..i]) && Digits(u[i + 1..])
  }

  /** [+-]?[0-9]*\.[0-9]* */
  predicate IsFloat(s: seq<Byte>) { exists i | 0 <= i < |Unsigned(s)| :: DotAt(Unsigned(s), i) }

  predicate ExpAt(s: seq<Byte>, k: nat)
    requires k < |s|
  {
    Classify(s[k]) == Exp && IsFloat(s[..k]) && k + 2 < |s| && Classify(s[k + 1]) == Sign && Digits(s[k + 2..])
  }

  /** A float followed by [eE][+-][0-9]+ */
  predicate IsScientific(s: seq<Byte>) { exists k | 0 <= k < |s| :: ExpAt(s, k) }

  /** The text can still become one of the three. */
  ghost predicate Viable(s: seq<Byte>) {
    exists t: seq<Byte> :: IsNumber(s + t)
  }

  predicate IsNumber(s: seq<Byte>) { IsInt(s) || IsFloat(s) || IsScientific(s) }

  // ---- the automaton

  function Next(st: State, c: Class): State {
    match st
    case Start => if c == Digit then Int else if c == Sign then S1 else if c == Dot then Float else Invalid
    case S1 => if c == Digit then Int else if c == Dot then Float else Invalid
    case Int => if c == Dot then Float else if c == Digit then Int else Invalid
    case Float => if c == Exp then S2 else if c == Digit then Float else Invalid
    case S2 => if c == Sign then Exponent else Invalid
    case Exponent => if c == Digit then Scientific else Invalid
    case Scientific => if c == Digit then Scientific else Invalid
    case Invalid => Invalid
  }

  /** The state after all of s. */
  function After(s: seq<Byte>): State {
    if s == [] then Start else Next(After(s[..|s| - 1]), Classify(s[|s| - 1]))
  }

  /** How often counter k is incremented on reading c in state st. */
  function Bumps(st: State, c: Class, k: nat): nat {
    var st' := Next(st, c);
    match st
    case Start => (if k == Index(Start) then 1 else 0) + (if k == Index(Invalid) && st' == Invalid then 1 else 0)
    case Int => if k == Index(Int) && st' != Int then 1 else 0
    case Float => if k == Index(Float) && st' != Float then 1 else 0
    case Scientific => if k == Index(Invalid) && st' == Invalid then 1 else 0
    case Invalid => 0
    case _ => if k == Index(st) then 1 else 0
  }

  // ---- automaton and languages agree

  lemma DigitsMore(s: seq<Byte>, c: Byte)
    ensures Digits(s + [c]) <==> Digits(s) && Classify(c) == Digit
  {
    hide Classify;
    var t := s + [c];
    assert forall i | 0 <= i < |s| :: t[i] == s[i];
    assert t[|s|] == c;
  }

  lemma UnsignedMore(s: seq<Byte>, c: Byte)
    ensures Unsigned(s + [c]) == if s == [] && Classify(c) == Sign then [] else Unsigned(s) + [c]
  {
    hide Classify;
    if s != [] { assert (s + [c])[1..] == s[1..] + [c]; } else { assert [] + [c] == [c] && [c][1..] == []; }
  }

  lemma IntMore(s: seq<Byte>, c: Byte)
    ensures IsInt(s + [c]) <==> Classify(c) == Digit && (Unsigned(s) == [] || IsInt(s))
  {
    hide Classify;
    UnsignedMore(s, c);
    DigitsMore(Unsigned(s), c);
  }

  /** A float ends in its dot, with digits or nothing before, or in a digit after a float. */
  lemma FloatMore(s: seq<Byte>, c: Byte)
    ensures IsFloat(s + [c]) <==> (Classify(c) == Dot && Digits(Unsigned(s))) || (Classify(c) == Digit && IsFloat(s))
  {
    hide Classify;
    UnsignedMore(s, c);
    var u := Unsigned(s);
    var v := u + [c];
    if Unsigned(s + [c]) == v {
      forall i | 0 <= i < |u| ensures DotAt(v, i) <==> DotAt(u, i) && Classify(c) == Digit {
        assert v[..i] == u[..i] && v[i + 1..] == u[i + 1..] + [c];
        DigitsMore(u[i + 1..], c);
      }
      assert v[..|u|] == u && v[|u| + 1..] == [];
      assert DotAt(v, |u|) <==> Classify(c) == Dot && Digits(u);
      Dotted(v, u, c);
    }
  }

  lemma Dotted(v: seq<Byte>, u: seq<Byte>, c: Byte)
    requires v == u + [c] && (DotAt(v, |u|) <==> Classify(c) == Dot && Digits(u))
    requires forall i | 0 <= i < |u| :: DotAt(v, i) <==> DotAt(u, i) && Classify(c) == Digit
    ensures (exists i | 0 <= i < |v| :: DotAt(v, i)) <==>
            (Classify(c) == Dot && Digits(u)) || (Classify(c) == Digit && exists i | 0 <= i < |u| :: DotAt(u, i))
  {
    hide Classify, Digits, DotAt;
    if i: nat :| i < |v| && DotAt(v, i) {
      if i < |u| { assert DotAt(u, i); }
    }
    if Classify(c) == Digit && exists i | 0 <= i < |u| :: DotAt(u, i) {
      var i :| 0 <= i < |u| && DotAt(u, i);
      assert DotAt(v, i);
    }
  }

  /** A float with its exponent mark, and one with the exponent's sign. */
  predicate IsMarked(s: seq<Byte>) { s != [] && Classify(s[|s| - 1]) == Exp && IsFloat(s[..|s| - 1]) }

  predicate IsSignedMark(s: seq<Byte>) { s != [] && Classify(s[|s| - 1]) == Sign && IsMarked(s[..|s| - 1]) }

  lemma MarkMore(s: seq<Byte>, c: Byte)
    ensures IsMarked(s + [c]) <==> Classify(c) == Exp && IsFloat(s)
    ensures IsSignedMark(s + [c]) <==> Classify(c) == Sign && IsMarked(s)
  {
    hide Classify;
    assert (s + [c])[..|s|] == s;
  }

  lemma ScientificMore(s: seq<Byte>, c: Byte)
    ensures IsScientific(s + [c]) <==> Classify(c) == Digit && (IsSignedMark(s) || IsScientific(s))
  {
    hide Classify, IsFloat;
    var t := s + [c];
    forall k | 0 <= k < |s| - 2 ensures ExpAt(t, k) <==> ExpAt(s, k) && Classify(c) == Digit {
      assert t[..k] == s[..k] && t[k + 2..] == s[k + 2..] + [c];
      DigitsMore(s[k + 2..], c);
    }
    if |s| >= 2 {
      var k := |s| - 2;
      assert t[..k] == s[..k] && t[k + 2..] == [] + [c] && s[..|s| - 1][..k] == s[..k];
      DigitsMore([], c);
      assert ExpAt(t, k) <==> IsSignedMark(s) && Classify(c) == Digit;
      if IsSignedMark(s) && Classify(c) == Digit { assert ExpAt(t, k); }
    }
    if IsScientific(t) {
      var k :| 0 <= k < |t| && ExpAt(t, k);
      assert k <= |s| - 2;
    }
    if IsScientific(s) && Classify(c) == Digit {
      var k :| 0 <= k < |s| && ExpAt(s, k);
      assert ExpAt(t, k);
    }
  }

  /** What each state means. */
  predicate Means(st: State, s: seq<Byte>) {
    match st
    case Start => s == []
    case S1 => |s| == 1 && Classify(s[0]) == Sign
    case Int => IsInt(s)
    case Float => IsFloat(s)
    case S2 => IsMarked(s)
    case Exponent => IsSignedMark(s)
    case Scientific => IsScientific(s)
    case Invalid => false
  }

  lemma BareUnsigned(s: seq<Byte>)
    ensures Unsigned(s) == [] <==> s == [] || (|s| == 1 && Classify(s[0]) == Sign)
    ensures Digits(Unsigned(s)) <==> Unsigned(s) == [] || IsInt(s)
  {
    hide Classify;
  }

  /** The automaton is in a state exactly when the text is in the state's language. */
  lemma {:induction false} StateMeaning(s: seq<Byte>, st: State)
    ensures After(s) == st && st != Invalid <==> Means(st, s)
  {
    if s == [] {
    } else {
      var t, c := s[..|s| - 1], s[|s| - 1];
      assert s == t + [c];
      StateMeaning(t, Start);
      StateMeaning(t, S1);
      StateMeaning(t, Int);
      StateMeaning(t, Float);
      StateMeaning(t, S2);
      StateMeaning(t, Exponent);
      StateMeaning(t, Scientific);
      assert After(s) == Next(After(t), Classify(c));
      hide *;
      NextMeaning(t, c, After(t), st);
    }
  }

  /** One more character. */
  lemma NextMeaning(t: seq<Byte>, c: Byte, at: State, st: State)
    requires forall u: State | u != Invalid :: at == u <==> Means(u, t)
    ensures Next(at, Classify(c)) == st && st != Invalid <==> Means(st, t + [c])
  {
    hide Classify, IsInt, IsFloat, IsMarked, IsSignedMark, IsScientific, Digits, Unsigned;
    BareUnsigned(t);
    IntMore(t, c);
    FloatMore(t, c);
    MarkMore(t, c);
    ScientificMore(t, c);
    assert Means(Start, t) <==> t == [];
    assert Means(S1, t) <==> |t| == 1 && Classify(t[0]) == Sign;
    assert Means(Int, t) <==> IsInt(t);
    assert Means(Float, t) <==> IsFloat(t);
    assert Means(S2, t) <==> IsMarked(t);
    assert Means(Exponent, t) <==> IsSignedMark(t);
    assert Means(Scientific, t) <==> IsScientific(t);
    assert |t + [c]| == 1 <==> t == [];
    assert (t + [c])[0] == if t == [] then c else t[0];
  }

  /** The three kinds of numbers are told apart exactly. */
  lemma Accepts(s: seq<Byte>)
    ensures After(s) == Int <==> IsInt(s)
    ensures After(s) == Float <==> IsFloat(s)
    ensures After(s) == Scientific <==> IsScientific(s)
  {
    StateMeaning(s, Int);
    StateMeaning(s, Float);
    StateMeaning(s, Scientific);
  }

  lemma {:induction false} StaysInvalid(s: seq<Byte>, t: seq<Byte>)
    requires After(s) == Invalid
    ensures After(s + t) == Invalid
  {
    if t == [] {
      assert s + t == s;
    } else {
      assert (s + t)[..|s + t| - 1] == s + t[..|t| - 1];
      StaysInvalid(s, t[..|t| - 1]);
    }
  }

  /** Text that ends a number begun with s. */
  function Completion(st: State): seq<Byte> {
    match st
    case Start => [0x30]
    case S1 => [0x30]
    case S2 => [0x2B, 0x30]
    case Exponent => [0x30]
    case _ => []
  }

  lemma Completes(s: seq<Byte>)
    requires After(s) != Invalid
    ensures After(s + Completion(After(s))) in {Int, Float, Scientific}
  {
    var t := Completion(After(s));
    assert s + [] == s;
    if |t| == 1 {
      assert (s + t)[..|s|] == s;
    } else if |t| == 2 {
      assert (s + t)[..|s| + 1] == s + [t[0]] && (s + [t[0]])[..|s|] == s;
    }
  }

  /** INVALID means that no continuation can be a number. */
  lemma InvalidMeaning(s: seq<Byte>)
    ensures After(s) == Invalid <==> !Viable(s)
  {
    if After(s) == Invalid {
      forall t: seq<Byte> ensures !IsNumber(s + t) {
        StaysInvalid(s, t);
        Accepts(s + t);
      }
    } else {
      var t := Completion(After(s));
      Completes(s);
      Accepts(s + t);
      assert IsNumber(s + t);
    }
  }

  // ---- what the transition counters count

  /** The increments of counter k over all of s. */
  function Seen(s: seq<Byte>, k: nat): nat {
    if s == [] then 0
    else Seen(s[..|s| - 1], k) + Bumps(After(s[..|s| - 1]), Classify(s[|s| - 1]), k)
  }

  lemma SeenMore(s: seq<Byte>, c: Byte, k: nat)
    ensures Seen(s + [c], k) == Seen(s, k) + Bumps(After(s), Classify(c), k) &&
            After(s + [c]) == Next(After(s), Classify(c))
  {
    hide Classify, Bumps, Next;
    assert (s + [c])[..|s|] == s;
  }

  /** States are only left upwards. */
  function Rank(st: State): nat {
    match st
    case Start => 0
    case S1 => 1
    case Int => 2
    case Float => 3
    case S2 => 4
    case Exponent => 5
    case Scientific => 6
    case Invalid => 7
  }

  /** The i-th character of s takes the automaton out of state st. */
  predicate LeavesAt(st: State, s: seq<Byte>, i: nat)
    requires i < |s|
  {
    After(s[..i]) == st && After(s[..i + 1]) != st
  }

  predicate Leaves(st: State, s: seq<Byte>) { exists i | 0 <= i < |s| :: LeavesAt(st, s, i) }

  lemma LeavesMore(st: State, s: seq<Byte>, c: Byte)
    ensures Leaves(st, s + [c]) <==> Leaves(st, s) || (After(s) == st && Next(st, Classify(c)) != st)
  {
    hide Classify, After, Next;
    var t := s + [c];
    SeenMore(s, c, 0);
    assert t[..|s|] == s && t[..|s| + 1] == t;
    forall i | 0 <= i < |s| ensures LeavesAt(st, t, i) <==> LeavesAt(st, s, i) {
      assert t[..i] == s[..i] && t[..i + 1] == s[..i + 1];
    }
    assert LeavesAt(st, t, |s|) <==> After(s) == st && Next(st, Classify(c)) != st;
    if Leaves(st, s) {
      var i :| 0 <= i < |s| && LeavesAt(st, s, i);
      assert LeavesAt(st, t, i);
    }
  }

  lemma RankUp(st: State, c: Class, up: State)
    ensures Rank(Next(st, c)) >= Rank(st) && (Next(st, c) != st ==> Rank(Next(st, c)) > Rank(st))
    ensures st in {Start, S1, Int, Float, S2, Exponent} && up in {Start, S1, Int, Float, S2, Exponent} ==>
              Bumps(st, c, Index(up)) == if st == up && Next(st, c) != st then 1 else 0
    ensures st in {Scientific, Invalid} && up in {Start, S1, Int, Float, S2, Exponent} ==> Bumps(st, c, Index(up)) == 0
  {
  }

  /** The counter of a state tells whether it was left; it is left once at most. */
  lemma {:induction false} SeenLeaves(s: seq<Byte>, st: State)
    requires st in {Start, S1, Int, Float, S2, Exponent}
    ensures Seen(s, Index(st)) == if Leaves(st, s) then 1 else 0
    ensures Leaves(st, s) ==> Rank(After(s)) > Rank(st)
  {
    hide Classify, Next, Bumps, Rank, Leaves, Seen, After, Index;
    if s == [] {
      NothingLeft(st);
    } else {
      var t, c := s[..|s| - 1], s[|s| - 1];
      assert s == t + [c];
      SeenLeaves(t, st);
      SeenMore(t, c, Index(st));
      LeavesMore(st, t, c);
      RankUp(After(t), Classify(c), st);
    }
  }

  lemma NothingLeft(st: State)
    ensures !Leaves(st, []) && Seen([], Index(st)) == 0
  {
  }

  /** The i-th character is counted under INVALID. */
  predicate FailsAt(s: seq<Byte>, i: nat)
    requires i < |s|
  {
    After(s[..i]) in {Start, Scientific} && After(s[..i + 1]) == Invalid
  }

  predicate Fails(s: seq<Byte>) { exists i | 0 <= i < |s| :: FailsAt(s, i) }

  lemma FailsMore(s: seq<Byte>, c: Byte)
    ensures Fails(s + [c]) <==>
            Fails(s) || (After(s) in {Start, Scientific} && Next(After(s), Classify(c)) == Invalid)
  {
    hide Classify, After, Next;
    var t := s + [c];
    SeenMore(s, c, 0);
    assert t[..|s|] == s && t[..|s| + 1] == t;
    forall i | 0 <= i < |s| ensures FailsAt(t, i) <==> FailsAt(s, i) {
      assert t[..i] == s[..i] && t[..i + 1] == s[..i + 1];
    }
    assert FailsAt(t, |s|) <==> After(s) in {Start, Scientific} && Next(After(s), Classify(c)) == Invalid;
    if Fails(s) {
      var i :| 0 <= i < |s| && FailsAt(s, i);
      assert FailsAt(t, i);
    }
  }

  lemma FailBumps(st: State, c: Class)
    ensures Bumps(st, c, Index(Invalid)) == if st in {Start, Scientific} && Next(st, c) == Invalid then 1 else 0
    ensures Bumps(st, c, Index(Scientific)) == 0
    ensures Next(Invalid, c) == Invalid
  {
  }

  lemma NothingFailed()
    ensures !Fails([]) && Seen([], Index(Invalid)) == 0 && Seen([], Index(Scientific)) == 0
  {
  }

  lemma {:induction false} SeenFails(s: seq<Byte>)
    ensures Seen(s, Index(Invalid)) == if Fails(s) then 1 else 0
    ensures Fails(s) ==> After(s) == Invalid
    ensures Seen(s, Index(Scientific)) == 0
  {
    hide Classify, Next, Bumps, Fails, Seen, After, Index;
    if s == [] {
      NothingFailed();
    } else {
      var t, c := s[..|s| - 1], s[|s| - 1];
      assert s == t + [c];
      SeenFails(t);
      SeenMore(t, c, Index(Invalid));
      SeenMore(t, c, Index(Scientific));
      FailsMore(t, c);
      FailBumps(After(t), Classify(c));
    }
  }

  lemma PrefixMore(s: seq<Byte>, i: nat)
    requires i < |s|
    ensures After(s[..i + 1]) == Next(After(s[..i]), Classify(s[i]))
  {
    hide Classify, After, Next, Seen, Bumps;
    assert s[..i + 1] == s[..i] + [s[i]];
    SeenMore(s[..i], s[i], 0);
  }

  lemma LeavesAtMeaning(st: State, s: seq<Byte>, i: nat)
    requires i < |s| && st != Invalid
    ensures LeavesAt(st, s, i) <==> Means(st, s[..i]) && !Means(st, s[..i + 1])
    ensures st in {Start, S1, S2, Exponent} ==> (LeavesAt(st, s, i) <==> Means(st, s[..i]))
  {
    hide Means, After, Classify;
    StateMeaning(s[..i], st);
    StateMeaning(s[..i + 1], st);
    PrefixMore(s, i);
  }

  lemma FailsAtMeaning(s: seq<Byte>, i: nat)
    requires i < |s|
    ensures FailsAt(s, i) <==> (i == 0 && !Viable(s[..1])) || (IsScientific(s[..i]) && Classify(s[i]) != Digit)
  {
    hide After, Classify, Viable, IsScientific;
    Accepts(s[..i]);
    StateMeaning(s[..i], Start);
    InvalidMeaning(s[..i + 1]);
    PrefixMore(s, i);
  }

  /** The INT counter rises by one for a text that an integer begins and that goes on otherwise. */
  lemma IntCount(s: seq<Byte>)
    ensures Seen(s, 4) == if exists i | 0 <= i < |s| :: IsInt(s[..i]) && !IsInt(s[..i + 1]) then 1 else 0
  {
    hide IsInt, Seen, After;
    SeenLeaves(s, Int);
    forall i | 0 <= i < |s| ensures LeavesAt(Int, s, i) <==> IsInt(s[..i]) && !IsInt(s[..i + 1]) {
      LeavesAtMeaning(Int, s, i);
    }
  }

  lemma FloatCount(s: seq<Byte>)
    ensures Seen(s, 5) == if exists i | 0 <= i < |s| :: IsFloat(s[..i]) && !IsFloat(s[..i + 1]) then 1 else 0
  {
    hide IsFloat, Seen, After;
    SeenLeaves(s, Float);
    forall i | 0 <= i < |s| ensures LeavesAt(Float, s, i) <==> IsFloat(s[..i]) && !IsFloat(s[..i + 1]) {
      LeavesAtMeaning(Float, s, i);
    }
  }

  lemma StartCounts(s: seq<Byte>)
    ensures Seen(s, 0) == if s != [] then 1 else 0
    ensures Seen(s, 2) == if |s| > 1 && Classify(s[0]) == Sign then 1 else 0
  {
    hide Seen, After, Classify;
    SeenLeaves(s, Start);
    SeenLeaves(s, S1);
    forall i | 0 <= i < |s|
      ensures LeavesAt(Start, s, i) <==> i == 0
      ensures LeavesAt(S1, s, i) <==> i == 1 && Classify(s[0]) == Sign
    {
      LeavesAtMeaning(Start, s, i);
      LeavesAtMeaning(S1, s, i);
    }
    if s != [] { assert LeavesAt(Start, s, 0); }
    if |s| > 1 { assert LeavesAt(S1, s, 1) <==> Classify(s[0]) == Sign; }
  }

  lemma MarkCounts(s: seq<Byte>)
    ensures Seen(s, 3) == if exists i | 0 <= i < |s| :: IsMarked(s[..i]) then 1 else 0
    ensures Seen(s, 6) == if exists i | 0 <= i < |s| :: IsSignedMark(s[..i]) then 1 else 0
  {
    hide IsMarked, IsSignedMark, Seen, After;
    SeenLeaves(s, S2);
    SeenLeaves(s, Exponent);
    forall i | 0 <= i < |s|
      ensures LeavesAt(S2, s, i) <==> IsMarked(s[..i])
      ensures LeavesAt(Exponent, s, i) <==> IsSignedMark(s[..i])
    {
      LeavesAtMeaning(S2, s, i);
      LeavesAtMeaning(Exponent, s, i);
    }
  }

  lemma InvalidCount(s: seq<Byte>)
    ensures Seen(s, 1) ==
            if s != [] && (!Viable(s[..1]) ||
                           exists i | 0 <= i < |s| :: IsScientific(s[..i]) && Classify(s[i]) != Digit) then 1 else 0
    ensures Seen(s, 7) == 0
  {
    hide Seen, After, Viable, IsScientific, Classify;
    SeenFails(s);
    forall i | 0 <= i < |s|
      ensures FailsAt(s, i) <==> (i == 0 && !Viable(s[..1])) || (IsScientific(s[..i]) && Classify(s[i]) != Digit)
    {
      FailsAtMeaning(s, i);
    }
    if s != [] && !Viable(s[..1]) { assert FailsAt(s, 0); }
  }

  // ---- scanning

  /** Where a token that is read from position p in state st ends, and the state then. */
  function Token(text: seq<Byte>, p: nat, st: State): (r: (State, nat))
    requires p <= |text|
    ensures p <= r.1 <= |text| && (!Ends(text, p, st) ==> p < r.1)
    decreases |text| - p
  {
    if p == |text| || Classify(text[p]) == Nul || st == Invalid then (st, p)
    else if Classify(text[p]) == Comma then (st, p + 1)
    else Token(text, p + 1, Next(st, Classify(text[p])))
  }

  /** The increments of counter k on the way. */
  function TokenBumps(text: seq<Byte>, p: nat, st: State, k: nat): nat
    requires p <= |text|
    decreases |text| - p
  {
    if p == |text| || Classify(text[p]) == Nul || st == Invalid || Classify(text[p]) == Comma then 0
    else Bumps(st, Classify(text[p]), k) + TokenBumps(text, p + 1, Next(st, Classify(text[p])), k)
  }

  predicate Plain(s: seq<Byte>) { forall i | 0 <= i < |s| :: Classify(s[i]) != Comma && Classify(s[i]) != Nul }

  predicate Ends(text: seq<Byte>, p: nat, st: State) { p >= |text| || Classify(text[p]) == Nul || st == Invalid }

  lemma TokenStep(text: seq<Byte>, p: nat, st: State)
    requires p <= |text|
    ensures Ends(text, p, st) ==> Token(text, p, st) == (st, p) && forall k: nat :: TokenBumps(text, p, st, k) == 0
    ensures !Ends(text, p, st) && Classify(text[p]) == Comma ==>
              Token(text, p, st) == (st, p + 1) && forall k: nat :: TokenBumps(text, p, st, k) == 0
    ensures !Ends(text, p, st) && Classify(text[p]) != Comma ==>
              Token(text, p, st) == Token(text, p + 1, Next(st, Classify(text[p]))) &&
              forall k: nat :: TokenBumps(text, p, st, k) == Bumps(st, Classify(text[p]), k) +
                TokenBumps(text, p + 1, Next(st, Classify(text[p])), k)
  {
    hide Classify;
  }

  lemma OneMore(text: seq<Byte>, p: nat, q: nat)
    requires p <= q < |text| && Plain(text[p..q]) && Classify(text[q]) != Nul && Classify(text[q]) != Comma
    ensures Plain(text[p..q + 1]) && After(text[p..q + 1]) == Next(After(text[p..q]), Classify(text[q]))
  {
    hide Classify;
    var s, s' := text[p..q], text[p..q + 1];
    assert s' == s + [text[q]] && s'[..|s'| - 1] == s;
  }

  /** What a token is: the text up to its end either is in the language of the state returned,
      and a comma (passed over) or the end of the text follows; or its last character is the
      first that rules out every number. */
  ghost predicate TokenIs(text: seq<Byte>, p: nat, st: State, q: nat)
    requires p <= |text|
  {
    if st == Invalid then
      p < q <= |text| && Plain(text[p..q]) && !Viable(text[p..q]) && Viable(text[p..q - 1])
    else
      exists e | p <= e <= |text| :: EndsAt(text, p, st, q, e)
  }

  predicate EndsAt(text: seq<Byte>, p: nat, st: State, q: nat, e: nat)
    requires p <= e <= |text|
  {
    && Plain(text[p..e]) && Means(st, text[p..e])
    && if e == |text| || Classify(text[e]) == Nul then q == e else Classify(text[e]) == Comma && q == e + 1
  }

  lemma {:induction false} TokenFrom(text: seq<Byte>, p: nat, q: nat)
    requires p <= q <= |text| && Plain(text[p..q]) && After(text[p..q]) != Invalid
    ensures var (st, q') := Token(text, q, After(text[p..q])); TokenIs(text, p, st, q')
    decreases |text| - q
  {
    hide Classify, Means, Viable, Token, Next, After;
    var s := text[p..q];
    StateMeaning(s, After(s));
    TokenStep(text, q, After(s));
    if q < |text| && Classify(text[q]) != Nul && Classify(text[q]) != Comma {
      OneMore(text, p, q);
      if After(text[p..q + 1]) == Invalid {
        TokenStep(text, q + 1, Invalid);
        InvalidMeaning(s);
        InvalidMeaning(text[p..q + 1]);
      } else {
        TokenFrom(text, p, q + 1);
      }
    } else {
      assert EndsAt(text, p, After(s), if q < |text| && Classify(text[q]) == Comma then q + 1 else q, q);
    }
  }

  /** core_state_transition finds the next token. */
  lemma TokenMeaning(text: seq<Byte>, p: nat)
    requires p <= |text|
    ensures TokenIs(text, p, Token(text, p, Start).0, Token(text, p, Start).1)
  {
    assert text[p..p] == [];
    TokenFrom(text, p, p);
  }

  /** The characters of a token: what was read of it, without a comma that was passed over. */
  function TokenText(read: seq<Byte>): seq<Byte> {
    if read != [] && read[|read| - 1] == 0x2C then read[..|read| - 1] else read
  }

  lemma PlainText(s: seq<Byte>, c: Byte)
    requires Plain(s)
    ensures TokenText(s) == s && (Classify(c) == Comma ==> TokenText(s + [c]) == s)
  {
    assert (s + [c])[..|s|] == s;
  }

  lemma {:induction false} BumpsFrom(text: seq<Byte>, p: nat, q: nat, k: nat)
    requires p <= q <= |text| && Plain(text[p..q])
    ensures var st := After(text[p..q]);
            Seen(TokenText(text[p..Token(text, q, st).1]), k) == Seen(text[p..q], k) + TokenBumps(text, q, st, k)
    decreases |text| - q
  {
    hide Classify, Token, TokenBumps, Next, After, Seen, Bumps, TokenText, Plain;
    var s := text[p..q];
    TokenStep(text, q, After(s));
    PlainText(s, 0);
    if !Ends(text, q, After(s)) {
      assert text[p..q + 1] == s + [text[q]];
      if Classify(text[q]) == Comma {
        PlainText(s, text[q]);
      } else {
        OneMore(text, p, q);
        SeenMore(s, text[q], k);
        BumpsFrom(text, p, q + 1, k);
      }
    }
  }

  /** The increments of a token are those of its text. */
  lemma BumpsMeaning(text: seq<Byte>, p: nat, k: nat)
    requires p <= |text|
    ensures TokenBumps(text, p, Start, k) == Seen(TokenText(text[p..Token(text, p, Start).1]), k)
  {
    hide Token, TokenBumps, TokenText;
    assert text[p..p] == [];
    BumpsFrom(text, p, p, k);
  }

  /** The increments of the eight counters, in the order of the enumeration, for a text that
      starts at p, by the languages alone. */
  lemma CountersMeaning(text: seq<Byte>, p: nat)
    requires p <= |text|
    ensures var s := TokenText(text[p..Token(text, p, Start).1]);
            && TokenBumps(text, p, Start, 0) == (if s != [] then 1 else 0)
            && TokenBumps(text, p, Start, 1) ==
               (if s != [] && (!Viable(s[..1]) ||
                               exists i | 0 <= i < |s| :: IsScientific(s[..i]) && Classify(s[i]) != Digit)
                then 1 else 0)
            && TokenBumps(text, p, Start, 2) == (if |s| > 1 && Classify(s[0]) == Sign then 1 else 0)
            && TokenBumps(text, p, Start, 3) == (if exists i | 0 <= i < |s| :: IsMarked(s[..i]) then 1 else 0)
            && TokenBumps(text, p, Start, 4) ==
               (if exists i | 0 <= i < |s| :: IsInt(s[..i]) && !IsInt(s[..i + 1]) then 1 else 0)
            && TokenBumps(text, p, Start, 5) ==
               (if exists i | 0 <= i < |s| :: IsFloat(s[..i]) && !IsFloat(s[..i + 1]) then 1 else 0)
            && TokenBumps(text, p, Start, 6) == (if exists i | 0 <= i < |s| :: IsSignedMark(s[..i]) then 1 else 0)
            && TokenBumps(text, p, Start, 7) == 0
  {
    hide *;
    var s := TokenText(text[p..Token(text, p, Start).1]);
    forall k: nat ensures TokenBumps(text, p, Start, k) == Seen(s, k) { BumpsMeaning(text, p, k); }
    StartCounts(s);
    InvalidCount(s);
    MarkCounts(s);
    IntCount(s);
    FloatCount(s);
  }

  /** A text with a NUL at z: no token reaches beyond it, and each takes at least a character. */
  lemma {:induction false} TokenWithin(text: seq<Byte>, p: nat, st: State, z: nat)
    requires p <= z < |text| && Classify(text[z]) == Nul
    ensures p <= Token(text, p, st).1 <= z
    ensures Classify(text[p]) != Nul && st != Invalid ==> p < Token(text, p, st).1
    decreases z - p
  {
    hide Classify;
    if Classify(text[p]) != Nul && Classify(text[p]) != Comma && st != Invalid {
      TokenWithin(text, p + 1, Next(st, Classify(text[p])), z);
    }
  }

  /** core_state_transition, from position p of the block.  The counters are 32 bits wide in C,
      and wrap. */
  method StateTransition(mem: array<Byte>, p: nat, counts: array<nat>, ghost z: nat) returns (state: State, q: nat)
    requires p <= z < mem.Length && Classify(mem[z]) == Nul && counts.Length == NUM_CORE_STATES &&
             (mem as object) != (counts as object)
    modifies counts
    ensures (state, q) == Token(mem[..], p, Start) && p <= q <= z
    ensures forall k | 0 <= k < NUM_CORE_STATES :: counts[k] == old(counts[k]) + TokenBumps(mem[..], p, Start, k)
  {
    hide Classify, Next, Bumps, Index, Token, TokenBumps;
    ghost var text := mem[..];
    TokenWithin(text, p, Start, z);
    assert Classify(text[z]) == Nul;
    state, q := Start, p;
    while Classify(mem[q]) != Nul && state != Invalid
      invariant p <= q <= z && mem[..] == text && Token(text, p, Start) == Token(text, q, state)
      invariant forall k | 0 <= k < NUM_CORE_STATES ::
        counts[k] + TokenBumps(text, q, state, k) == old(counts[k]) + TokenBumps(text, p, Start, k)
      decreases z - q
    {
      TokenStep(text, q, state);
      assert mem[q] == text[q] && mem[z] == text[z] && q < z;
      var symbol := mem[q];
      if Classify(symbol) == Comma {
        q := q + 1;
        return;
      }
      var next := Advance(state, Classify(symbol), counts);
      state := next;
      q := q + 1;
    }
    TokenStep(text, q, state);
  }

  /** The switch: one transition, with its counters. */
  method Advance(state: State, c: Class, counts: array<nat>) returns (next: State)
    requires counts.Length == NUM_CORE_STATES
    modifies counts
    ensures next == Next(state, c)
    ensures forall k | 0 <= k < NUM_CORE_STATES :: counts[k] == old(counts[k]) + Bumps(state, c, k)
  {
    next := state;
    match state
    case Start =>
      if c == Digit {
        next := Int;
      } else if c == Sign {
        next := S1;
      } else if c == Dot {
        next := Float;
      } else {
        next := Invalid;
        counts[Index(Invalid)] := counts[Index(Invalid)] + 1;
      }
      counts[Index(Start)] := counts[Index(Start)] + 1;
    case S1 =>
      next := if c == Digit then Int else if c == Dot then Float else Invalid;
      counts[Index(S1)] := counts[Index(S1)] + 1;
    case Int =>
      if c == Dot {
        next := Float;
        counts[Index(Int)] := counts[Index(Int)] + 1;
      } else if c != Digit {
        next := Invalid;
        counts[Index(Int)] := counts[Index(Int)] + 1;
      }
    case Float =>
      if c == Exp {
        next := S2;
        counts[Index(Float)] := counts[Index(Float)] + 1;
      } else if c != Digit {
        next := Invalid;
        counts[Index(Float)] := counts[Index(Float)] + 1;
      }
    case S2 =>
      next := if c == Sign then Exponent else Invalid;
      counts[Index(S2)] := counts[Index(S2)] + 1;
    case Exponent =>
      next := if c == Digit then Scientific else Invalid;
      counts[Index(Exponent)] := counts[Index(Exponent)] + 1;
    case Scientific =>
      if c != Digit {
        next := Invalid;
        counts[Index(Invalid)] := counts[Index(Invalid)] + 1;
      }
    case Invalid =>
  }
}
