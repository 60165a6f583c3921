/**
 * What the parser guarantees: every formula it builds is printed back to
 * tokens and parsed to itself, binary operators group to the left, a
 * tighter operator groups before a looser one, and the formulas it builds
 * have no empty And or Or.
 */
module ParserProperties {
  import opened Results
  import opened Formulas
  import opened Parser

  // ---------------------------------------------------------------------------
  // Printing a built formula back to tokens
  // ---------------------------------------------------------------------------

  /** `u`, then the operator of `lvl`, then `v`. */
  function Infix(lvl: Level, u: seq<Token>, v: seq<Token>): seq<Token> {
    u + [Operator(lvl)] + v
  }

  /** The tokens of a built formula, every binary node in parentheses. */
  function Unparse(f: Formula): (ts: seq<Token>)
    requires Built(f)
    ensures |ts| > 0
  {
    match f
    case Atom(s) => [s]
    case Not(g) => [NotToken] + Unparse(g)
    case And(fs) => [LeftParen] + Infix(AndLevel, Unparse(fs[0]), Unparse(fs[1])) + [RightParen]
    case Or(fs) => [LeftParen] + Infix(OrLevel, Unparse(fs[0]), Unparse(fs[1])) + [RightParen]
    case Implies(p, q) => [LeftParen] + Infix(ImpLevel, Unparse(p), Unparse(q)) + [RightParen]
    case Equiv(l, r) => [LeftParen] + Infix(EquivLevel, Unparse(l), Unparse(r)) + [RightParen]
  }

  /** The tokens from position `i` on begin with `u`. */
  predicate At(ts: seq<Token>, i: nat, u: seq<Token>) {
    i + |u| <= |ts| && ts[i..i + |u|] == u
  }

  lemma AtSplit(ts: seq<Token>, i: nat, u: seq<Token>, v: seq<Token>)
    requires At(ts, i, u + v)
    ensures At(ts, i, u) && At(ts, i + |u|, v)
  {
    var w := ts[i..i + |u| + |v|];
    assert w == u + v;
    assert ts[i..i + |u|] == w[..|u|];
    assert ts[i + |u|..i + |u| + |v|] == w[|u|..];
  }

  lemma AtToken(ts: seq<Token>, i: nat, t: Token)
    requires At(ts, i, [t])
    ensures i < |ts| && ts[i] == t
  {
    assert ts[i..i + 1][0] == ts[i];
  }

  /** Where the pieces of a whole token list `u`, operator, `v` lie. */
  lemma Layout(ts: seq<Token>, lvl: Level, u: seq<Token>, v: seq<Token>)
    requires ts == Infix(lvl, u, v)
    ensures |ts| == |u| + 1 + |v| && At(ts, 0, u) && ts[|u|] == Operator(lvl) && At(ts, |u| + 1, v)
  {
    AtWhole(ts);
    InfixParts(ts, 0, lvl, u, v);
  }

  /** The pieces of `u`, the operator of `lvl` and `v`, found in place. */
  lemma InfixParts(ts: seq<Token>, i: nat, lvl: Level, u: seq<Token>, v: seq<Token>)
    requires At(ts, i, Infix(lvl, u, v))
    ensures At(ts, i, u) && ts[i + |u|] == Operator(lvl) && At(ts, i + |u| + 1, v)
  {
    AtSplit(ts, i, u + [Operator(lvl)], v);
    AtSplit(ts, i, u, [Operator(lvl)]);
    AtToken(ts, i + |u|, Operator(lvl));
  }

  /** The pieces of a parenthesised token list, found in place. */
  lemma ParenParts(ts: seq<Token>, i: nat, x: seq<Token>)
    requires At(ts, i, [LeftParen] + x + [RightParen])
    ensures ts[i] == LeftParen && At(ts, i + 1, x) && ts[i + 1 + |x|] == RightParen
  {
    AtSplit(ts, i, [LeftParen] + x, [RightParen]);
    AtSplit(ts, i, [LeftParen], x);
    AtToken(ts, i, LeftParen);
    AtToken(ts, i + 1 + |x|, RightParen);
  }

  lemma AtWhole(ts: seq<Token>)
    ensures At(ts, 0, ts)
  {
    assert ts[0..|ts|] == ts;
  }

  /** A name is neither ¬, a parenthesis nor a binary operator. */
  lemma NameIsPlain(t: Token)
    requires IsName(t)
    ensures t != NotToken && t != LeftParen && t != RightParen && Looseness(t) == 4
  {
    assert IsAlphanumeric(t[0]);
  }

  // ---------------------------------------------------------------------------
  // Where a level stops
  // ---------------------------------------------------------------------------

  /** Position `e` ends a parse at looseness `rank`: no token, or one binding more loosely. */
  predicate Ends(ts: seq<Token>, e: nat, rank: int) {
    e >= |ts| || Looseness(ts[e]) > rank
  }

  /** The loop of a level stops at once in front of a looser token. */
  lemma StopRest(ts: seq<Token>, lvl: Level, node: Formula, e: nat)
    requires e <= |ts| && Built(node) && Ends(ts, e, Rank(lvl))
    ensures BinaryRest(ts, lvl, node, e) == Ok((node, e))
  {
  }

  /** A parse at a tight level that ends in front of a looser token is also the parse at every looser level. */
  lemma {:induction false} Lift(ts: seq<Token>, lvl: Level, low: Level, i: nat, g: Formula, e: nat)
    requires i <= |ts| && Rank(low) <= Rank(lvl)
    requires Binary(ts, low, i) == Ok((g, e)) && Ends(ts, e, Rank(lvl))
    ensures Binary(ts, lvl, i) == Ok((g, e))
    decreases Rank(lvl)
  {
    if lvl != low {
      Lift(ts, Tighter(lvl), low, i, g, e);
      assert Operand(ts, lvl, i) == Ok((g, e));
      StopRest(ts, lvl, g, e);
    }
  }

  /** What `parse_not` reads, followed by a token looser than `lvl`, is the whole parse at `lvl`. */
  lemma NotChainLifts(ts: seq<Token>, lvl: Level, i: nat, g: Formula, e: nat)
    requires i <= |ts| && NotChain(ts, i) == Ok((g, e)) && Ends(ts, e, Rank(lvl))
    ensures Binary(ts, lvl, i) == Ok((g, e))
  {
    assert Operand(ts, AndLevel, i) == Ok((g, e));
    StopRest(ts, AndLevel, g, e);
    Lift(ts, lvl, AndLevel, i, g, e);
  }

  /** A parenthesis, a formula at the loosest level and its closing parenthesis. */
  lemma ParenPrimary(ts: seq<Token>, i: nat, g: Formula, e: nat)
    requires i < |ts| && ts[i] == LeftParen
    requires Binary(ts, EquivLevel, i + 1) == Ok((g, e)) && e < |ts| && ts[e] == RightParen
    ensures NotChain(ts, i) == Ok((g, e + 1))
  {
    assert Primary(ts, i) == Ok((g, e + 1));
  }

  /** The whole token list parses at the loosest level. */
  lemma WholeParse(ts: seq<Token>, f: Formula)
    requires Binary(ts, EquivLevel, 0) == Ok((f, |ts|))
    ensures Parsed(ts) == Ok(f)
  {
  }

  // ---------------------------------------------------------------------------
  // Printed formulas parse back
  // ---------------------------------------------------------------------------

  /** The printed tokens of `f`, ending at `e`, parse as one operand of `lvl` to `f`. */
  lemma {:induction false} OperandAt(ts: seq<Token>, lvl: Level, i: nat, f: Formula, e: nat)
    requires Built(f) && At(ts, i, Unparse(f)) && e == i + |Unparse(f)|
    requires Ends(ts, e, Rank(lvl) - 1)
    ensures Operand(ts, lvl, i) == Ok((f, e))
    decreases |Unparse(f)|, 3
  {
    PrimaryParses(ts, i, f);
    if lvl != AndLevel {
      NotChainLifts(ts, Tighter(lvl), i, f, e);
    }
  }

  /** The printed tokens of `l`, the operator of `lvl` and those of `r`, ending at `e`, parse at `lvl` to their node. */
  lemma {:induction false} InfixParses(ts: seq<Token>, lvl: Level, i: nat, l: Formula, r: Formula, e: nat)
    requires Built(l) && Built(r) && At(ts, i, Infix(lvl, Unparse(l), Unparse(r)))
    requires e == i + |Infix(lvl, Unparse(l), Unparse(r))| && Ends(ts, e, Rank(lvl))
    ensures Binary(ts, lvl, i) == Ok((Build(lvl, l, r), e))
    decreases |Unparse(l)| + |Unparse(r)| + 1, 4
  {
    var u, v := Unparse(l), Unparse(r);
    var k := i + |u|;
    InfixParts(ts, i, lvl, u, v);
    OperandAt(ts, lvl, i, l, k);
    OperandAt(ts, lvl, k + 1, r, e);
    InfixSteps(ts, lvl, i, l, k, r, e);
  }

  /** One operand, the operator and a second operand that stops in front of a looser token. */
  lemma InfixSteps(ts: seq<Token>, lvl: Level, i: nat, l: Formula, k: nat, r: Formula, e: nat)
    requires i <= |ts| && Operand(ts, lvl, i) == Ok((l, k)) && k < |ts| && ts[k] == Operator(lvl)
    requires Operand(ts, lvl, k + 1) == Ok((r, e)) && Ends(ts, e, Rank(lvl))
    ensures Binary(ts, lvl, i) == Ok((Build(lvl, l, r), e))
  {
    BinaryStart(ts, lvl, i, l, k);
    RestStep(ts, lvl, l, k, r, e);
    StopRest(ts, lvl, Build(lvl, l, r), e);
  }

  /** The printed tokens of a built formula parse, from ¬ level down, to that formula. */
  lemma {:induction false} PrimaryParses(ts: seq<Token>, i: nat, f: Formula)
    requires Built(f) && At(ts, i, Unparse(f))
    ensures NotChain(ts, i) == Ok((f, i + |Unparse(f)|))
    decreases |Unparse(f)|, 2
  {
    if f.Atom? {
      AtomParses(ts, i, f);
    } else if f.Not? {
      NegationParses(ts, i, f);
    } else {
      NodeParses(ts, i, f);
    }
  }

  /** The printed tokens of a built binary node parse, from ¬ level down, to that node. */
  lemma {:induction false} NodeParses(ts: seq<Token>, i: nat, f: Formula)
    requires !f.Atom? && !f.Not? && Built(f) && At(ts, i, Unparse(f))
    ensures NotChain(ts, i) == Ok((f, i + |Unparse(f)|))
    decreases |Unparse(f)|, 1
  {
    match f
    case And(fs) =>
      Parenthesised(ts, i, f, AndLevel, fs[0], fs[1], i + |Unparse(f)|);
    case Or(fs) =>
      Parenthesised(ts, i, f, OrLevel, fs[0], fs[1], i + |Unparse(f)|);
    case Implies(p, q) =>
      Parenthesised(ts, i, f, ImpLevel, p, q, i + |Unparse(f)|);
    case Equiv(p, q) =>
      Parenthesised(ts, i, f, EquivLevel, p, q, i + |Unparse(f)|);
  }

  /** A name parses to its atom. */
  lemma AtomParses(ts: seq<Token>, i: nat, f: Formula)
    requires f.Atom? && Built(f) && At(ts, i, Unparse(f))
    ensures NotChain(ts, i) == Ok((f, i + |Unparse(f)|))
  {
    AtToken(ts, i, f.name);
    NameIsPlain(f.name);
  }

  /** A ¬ followed by the printed tokens of its operand parses to the negation. */
  lemma {:induction false} NegationParses(ts: seq<Token>, i: nat, f: Formula)
    requires f.Not? && Built(f) && At(ts, i, Unparse(f))
    ensures NotChain(ts, i) == Ok((f, i + |Unparse(f)|))
    decreases |Unparse(f)|, 0
  {
    AtSplit(ts, i, [NotToken], Unparse(f.arg));
    AtToken(ts, i, NotToken);
    PrimaryParses(ts, i + 1, f.arg);
  }

  /** A parenthesised binary node, ending at `e`, parses from ¬ level down to that node. */
  lemma {:induction false} Parenthesised(ts: seq<Token>, i: nat, f: Formula, lvl: Level, l: Formula, r: Formula, e: nat)
    requires Built(l) && Built(r) && f == Build(lvl, l, r)
    requires At(ts, i, [LeftParen] + Infix(lvl, Unparse(l), Unparse(r)) + [RightParen])
    requires e == i + |Infix(lvl, Unparse(l), Unparse(r))| + 2
    ensures NotChain(ts, i) == Ok((f, e))
    decreases |Unparse(l)| + |Unparse(r)| + 1, 6
  {
    var x := Infix(lvl, Unparse(l), Unparse(r));
    ParenParts(ts, i, x);
    ParenthesisedInner(ts, i, f, lvl, l, r, x, e);
  }

  /** The same, once the parentheses and the tokens between them are located. */
  lemma {:induction false} ParenthesisedInner(ts: seq<Token>, i: nat, f: Formula, lvl: Level, l: Formula, r: Formula,
                                              x: seq<Token>, e: nat)
    requires Built(l) && Built(r) && f == Build(lvl, l, r) && x == Infix(lvl, Unparse(l), Unparse(r))
    requires i < |ts| && ts[i] == LeftParen && At(ts, i + 1, x)
    requires e == i + |x| + 2 && e - 1 < |ts| && ts[e - 1] == RightParen
    ensures NotChain(ts, i) == Ok((f, e))
    decreases |Unparse(l)| + |Unparse(r)| + 1, 5
  {
    ClosingEnds(ts, e - 1, Rank(lvl));
    InfixParses(ts, lvl, i + 1, l, r, e - 1);
    ParenLift(ts, i, lvl, f, e - 1);
  }

  /** A closing parenthesis ends a parse at every level. */
  lemma ClosingEnds(ts: seq<Token>, e: nat, rank: int)
    requires e < |ts| && ts[e] == RightParen && rank <= 3
    ensures Ends(ts, e, rank)
  {
    assert Looseness(RightParen) == 4;
  }

  /** A parse at any level between a parenthesis and its closing parenthesis is a primary. */
  lemma ParenLift(ts: seq<Token>, i: nat, lvl: Level, g: Formula, e: nat)
    requires i < |ts| && ts[i] == LeftParen
    requires Binary(ts, lvl, i + 1) == Ok((g, e)) && e < |ts| && ts[e] == RightParen
    ensures NotChain(ts, i) == Ok((g, e + 1))
  {
    Lift(ts, EquivLevel, lvl, i + 1, g, e);
    ParenPrimary(ts, i, g, e);
  }

  /** Round trip: parsing the printed tokens of a built formula gives it back. */
  lemma RoundTrip(f: Formula)
    requires Built(f)
    ensures Parsed(Unparse(f)) == Ok(f)
  {
    var ts := Unparse(f);
    AtWhole(ts);
    PrimaryParses(ts, 0, f);
    NotChainLifts(ts, EquivLevel, 0, f, |ts|);
    WholeParse(ts, f);
  }

  /** A whole token list that parses at the loosest level to `f` is parsed to `f`. */
  lemma ParsedWhole(ts: seq<Token>, f: Formula)
    ensures Parsed(ts) == Ok(f) <==> Binary(ts, EquivLevel, 0) == Ok((f, |ts|))
  {
  }

  // ---------------------------------------------------------------------------
  // Grouping
  // ---------------------------------------------------------------------------

  /** A level starts with one operand and continues with its loop. */
  lemma BinaryStart(ts: seq<Token>, lvl: Level, i: nat, g: Formula, j: nat)
    requires i <= |ts| && Operand(ts, lvl, i) == Ok((g, j))
    ensures Built(g) && j <= |ts| && Binary(ts, lvl, i) == BinaryRest(ts, lvl, g, j)
  {
  }

  /** Above ∧, an operand is a parse at the next tighter level. */
  lemma OperandTighter(ts: seq<Token>, lvl: Level, i: nat)
    requires i <= |ts| && lvl != AndLevel
    ensures Operand(ts, lvl, i) == Binary(ts, Tighter(lvl), i)
  {
  }

  /** One turn of a level's loop: the operator, then one more operand. */
  lemma RestStep(ts: seq<Token>, lvl: Level, node: Formula, k: nat, r: Formula, e: nat)
    requires k < |ts| && ts[k] == Operator(lvl) && Built(node)
    requires Operand(ts, lvl, k + 1) == Ok((r, e))
    ensures Built(r) && e <= |ts|
    ensures BinaryRest(ts, lvl, node, k) == BinaryRest(ts, lvl, Build(lvl, node, r), e)
  {
  }

  /** The loop's last turn: the operator, then an operand reaching the end of the tokens. */
  lemma LastStep(ts: seq<Token>, lvl: Level, node: Formula, k: nat, y: Formula)
    requires k < |ts| && ts[k] == Operator(lvl) && Built(node)
    requires Operand(ts, lvl, k + 1) == Ok((y, |ts|))
    ensures BinaryRest(ts, lvl, node, k) == Ok((Build(lvl, node, y), |ts|))
  {
    RestStep(ts, lvl, node, k, y, |ts|);
    StopRest(ts, lvl, Build(lvl, node, y), |ts|);
  }

  /** Two operands of `lvl` around its operator make up the whole token list. */
  lemma WholePair(ts: seq<Token>, lvl: Level, x: Formula, k: nat, y: Formula)
    requires Operand(ts, lvl, 0) == Ok((x, k)) && k < |ts| && ts[k] == Operator(lvl)
    requires Operand(ts, lvl, k + 1) == Ok((y, |ts|))
    ensures Parsed(ts) == Ok(Build(lvl, x, y))
  {
    BinaryStart(ts, lvl, 0, x, k);
    LastStep(ts, lvl, x, k, y);
    Lift(ts, EquivLevel, lvl, 0, Build(lvl, x, y), |ts|);
    WholeParse(ts, Build(lvl, x, y));
  }

  /** `a op b op c` groups as `(a op b) op c`, for each binary operator. */
  lemma LeftAssociative(lvl: Level, a: Formula, b: Formula, c: Formula)
    requires Built(a) && Built(b) && Built(c)
    ensures Parsed(Infix(lvl, Infix(lvl, Unparse(a), Unparse(b)), Unparse(c)))
      == Ok(Build(lvl, Build(lvl, a, b), c))
  {
    var ua, ub, uc := Unparse(a), Unparse(b), Unparse(c);
    var x := Infix(lvl, ua, ub);
    Layout(Infix(lvl, x, uc), lvl, x, uc);
    InfixParts(Infix(lvl, x, uc), 0, lvl, ua, ub);
    LeftAssociativeAt(Infix(lvl, x, uc), lvl, a, b, c, |ua|, |x|);
  }

  lemma LeftAssociativeAt(ts: seq<Token>, lvl: Level, a: Formula, b: Formula, c: Formula, k1: nat, k2: nat)
    requires Built(a) && Built(b) && Built(c)
    requires k1 == |Unparse(a)| && k2 == k1 + 1 + |Unparse(b)| && |ts| == k2 + 1 + |Unparse(c)|
    requires At(ts, 0, Unparse(a)) && ts[k1] == Operator(lvl)
    requires At(ts, k1 + 1, Unparse(b)) && ts[k2] == Operator(lvl)
    requires At(ts, k2 + 1, Unparse(c))
    ensures Parsed(ts) == Ok(Build(lvl, Build(lvl, a, b), c))
  {
    OperandAt(ts, lvl, 0, a, k1);
    OperandAt(ts, lvl, k1 + 1, b, k2);
    LeftAssociativeTail(ts, lvl, a, b, c, k1, k2);
  }

  lemma LeftAssociativeTail(ts: seq<Token>, lvl: Level, a: Formula, b: Formula, c: Formula, k1: nat, k2: nat)
    requires Built(c) && |ts| == k2 + 1 + |Unparse(c)| && At(ts, k2 + 1, Unparse(c))
    requires Operand(ts, lvl, 0) == Ok((a, k1)) && k1 < |ts| && ts[k1] == Operator(lvl)
    requires Operand(ts, lvl, k1 + 1) == Ok((b, k2)) && ts[k2] == Operator(lvl)
    ensures Parsed(ts) == Ok(Build(lvl, Build(lvl, a, b), c))
  {
    OperandAt(ts, lvl, k2 + 1, c, |ts|);
    WholeTriple(ts, lvl, a, k1, b, k2, c);
  }

  /** Three operands of `lvl` joined by its operator make up the whole token list, nested to the left. */
  lemma WholeTriple(ts: seq<Token>, lvl: Level, x: Formula, k1: nat, y: Formula, k2: nat, z: Formula)
    requires Operand(ts, lvl, 0) == Ok((x, k1)) && k1 < |ts| && ts[k1] == Operator(lvl)
    requires Operand(ts, lvl, k1 + 1) == Ok((y, k2)) && k2 < |ts| && ts[k2] == Operator(lvl)
    requires Operand(ts, lvl, k2 + 1) == Ok((z, |ts|))
    ensures Parsed(ts) == Ok(Build(lvl, Build(lvl, x, y), z))
  {
    FirstStep(ts, lvl, x, k1, y, k2);
    LastStep(ts, lvl, Build(lvl, x, y), k2, z);
    Lift(ts, EquivLevel, lvl, 0, Build(lvl, Build(lvl, x, y), z), |ts|);
    WholeParse(ts, Build(lvl, Build(lvl, x, y), z));
  }

  /** A level's first operand and first loop turn. */
  lemma FirstStep(ts: seq<Token>, lvl: Level, x: Formula, k: nat, y: Formula, e: nat)
    requires Operand(ts, lvl, 0) == Ok((x, k)) && k < |ts| && ts[k] == Operator(lvl)
    requires Operand(ts, lvl, k + 1) == Ok((y, e))
    ensures Binary(ts, lvl, 0) == BinaryRest(ts, lvl, Build(lvl, x, y), e)
  {
    BinaryStart(ts, lvl, 0, x, k);
    RestStep(ts, lvl, x, k, y, e);
  }

  /** `a lo b hi c`, with `hi` binding tighter, groups as `a lo (b hi c)`. */
  lemma TighterOnRight(lo: Level, hi: Level, a: Formula, b: Formula, c: Formula)
    requires Rank(hi) < Rank(lo) && Built(a) && Built(b) && Built(c)
    ensures Parsed(Infix(lo, Unparse(a), Infix(hi, Unparse(b), Unparse(c))))
      == Ok(Build(lo, a, Build(hi, b, c)))
  {
    var ua, x := Unparse(a), Infix(hi, Unparse(b), Unparse(c));
    Layout(Infix(lo, ua, x), lo, ua, x);
    TighterOnRightAt(Infix(lo, ua, x), lo, hi, a, b, c, |ua|);
  }

  lemma TighterOnRightAt(ts: seq<Token>, lo: Level, hi: Level, a: Formula, b: Formula, c: Formula, k: nat)
    requires Rank(hi) < Rank(lo) && Built(a) && Built(b) && Built(c)
    requires k == |Unparse(a)| && |ts| == k + 1 + |Infix(hi, Unparse(b), Unparse(c))|
    requires At(ts, 0, Unparse(a)) && ts[k] == Operator(lo)
    requires At(ts, k + 1, Infix(hi, Unparse(b), Unparse(c)))
    ensures Parsed(ts) == Ok(Build(lo, a, Build(hi, b, c)))
  {
    OperandAt(ts, lo, 0, a, k);
    TighterOperandAt(ts, lo, hi, k + 1, b, c, |ts|);
    WholePair(ts, lo, a, k, Build(hi, b, c));
  }

  /** `a hi b lo c`, with `hi` binding tighter, groups as `(a hi b) lo c`. */
  lemma TighterOnLeft(lo: Level, hi: Level, a: Formula, b: Formula, c: Formula)
    requires Rank(hi) < Rank(lo) && Built(a) && Built(b) && Built(c)
    ensures Parsed(Infix(lo, Infix(hi, Unparse(a), Unparse(b)), Unparse(c)))
      == Ok(Build(lo, Build(hi, a, b), c))
  {
    var x, uc := Infix(hi, Unparse(a), Unparse(b)), Unparse(c);
    Layout(Infix(lo, x, uc), lo, x, uc);
    TighterOnLeftAt(Infix(lo, x, uc), lo, hi, a, b, c, |x|);
  }

  lemma TighterOnLeftAt(ts: seq<Token>, lo: Level, hi: Level, a: Formula, b: Formula, c: Formula, k: nat)
    requires Rank(hi) < Rank(lo) && Built(a) && Built(b) && Built(c)
    requires k == |Infix(hi, Unparse(a), Unparse(b))| && |ts| == k + 1 + |Unparse(c)|
    requires At(ts, 0, Infix(hi, Unparse(a), Unparse(b))) && ts[k] == Operator(lo)
    requires At(ts, k + 1, Unparse(c))
    ensures Parsed(ts) == Ok(Build(lo, Build(hi, a, b), c))
  {
    TighterOperandAt(ts, lo, hi, 0, a, b, k);
    LastOperand(ts, lo, Build(hi, a, b), k, c);
  }

  /** A first operand, the operator of `lvl`, and the printed tokens of `c` up to the end parse to their node. */
  lemma LastOperand(ts: seq<Token>, lvl: Level, x: Formula, k: nat, c: Formula)
    requires Built(c) && |ts| == k + 1 + |Unparse(c)| && At(ts, k + 1, Unparse(c))
    requires Operand(ts, lvl, 0) == Ok((x, k)) && ts[k] == Operator(lvl)
    ensures Parsed(ts) == Ok(Build(lvl, x, c))
  {
    OperandAt(ts, lvl, k + 1, c, |ts|);
    WholePair(ts, lvl, x, k, c);
  }

  /** `a hi b`, followed by the end or by a looser operator `lo`, is one operand of `lo`. */
  lemma TighterOperandAt(ts: seq<Token>, lo: Level, hi: Level, i: nat, a: Formula, b: Formula, e: nat)
    requires Rank(hi) < Rank(lo) && Built(a) && Built(b)
    requires At(ts, i, Infix(hi, Unparse(a), Unparse(b))) && e == i + |Infix(hi, Unparse(a), Unparse(b))|
    requires Ends(ts, e, Rank(lo) - 1)
    ensures Operand(ts, lo, i) == Ok((Build(hi, a, b), e))
  {
    InfixParses(ts, hi, i, a, b, e);
    Lift(ts, Tighter(lo), hi, i, Build(hi, a, b), e);
    OperandTighter(ts, lo, i);
  }

  // ---------------------------------------------------------------------------
  // Negation and shape
  // ---------------------------------------------------------------------------

  /** `g` under `k` Not nodes. */
  function Nots(k: nat, g: Formula): Formula {
    if k == 0 then g else Not(Nots(k - 1, g))
  }

  /** `k` leading ¬ tokens put `k` Not nodes around the operand that follows them. */
  lemma {:induction false} NotNesting(ts: seq<Token>, i: nat, k: nat)
    requires i + k <= |ts|
    requires forall t :: i <= t < i + k ==> ts[t] == NotToken
    requires i + k == |ts| || ts[i + k] != NotToken
    ensures NotChain(ts, i) == match Primary(ts, i + k)
      case Err(m) => Err(m)
      case Ok((g, j)) => Ok((Nots(k, g), j))
    decreases k
  {
    if k > 0 {
      NotNesting(ts, i + 1, k - 1);
    }
  }

  /** A built formula has no And or Or without operands. */
  lemma {:induction false} BuiltNoEmpty(f: Formula)
    requires Built(f)
    ensures NoEmptyJunctions(f)
  {
    match f
    case Atom(_) =>
    case Not(g) => BuiltNoEmpty(g);
    case And(fs) =>
      BuiltNoEmpty(fs[0]);
      BuiltNoEmpty(fs[1]);
    case Or(fs) =>
      BuiltNoEmpty(fs[0]);
      BuiltNoEmpty(fs[1]);
    case Implies(p, q) =>
      BuiltNoEmpty(p);
      BuiltNoEmpty(q);
    case Equiv(l, r) =>
      BuiltNoEmpty(l);
      BuiltNoEmpty(r);
  }

  /** Every parsed formula has no empty And or Or, so entailment decides it exactly. */
  lemma ParsedNoEmpty(ts: seq<Token>)
    ensures Parsed(ts).Ok? ==> NoEmptyJunctions(Parsed(ts).value)
  {
    if Parsed(ts).Ok? {
      BuiltNoEmpty(Parsed(ts).value);
    }
  }
}
