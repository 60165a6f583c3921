/**
 * The recursive-descent formula parser (Belief_base/parser.py), over a
 * sequence of tokens. From loosest to tightest: ↔, →, ∨, ∧, then ¬; the
 * binary operators associate to the left and parentheses hold a whole
 * formula. A failure is the ValueError the parser raises, with its message.
 */
module Parser {
  import opened Results
  import opened Formulas

  type Token = string

  const NotToken: Token := "¬"
  const LeftParen: Token := "("
  const RightParen: Token := ")"

  /** The four binary levels, from loosest to tightest. */
  datatype Level = EquivLevel | ImpLevel | OrLevel | AndLevel

  /** How loosely a level binds: 3 for ↔ down to 0 for ∧. */
  function Rank(lvl: Level): nat {
    match lvl
    case EquivLevel => 3
    case ImpLevel => 2
    case OrLevel => 1
    case AndLevel => 0
  }

  /** How loosely a token binds as an operator; 4 for a token that is no binary operator. */
  function Looseness(t: Token): nat {
    if t == "∧" then 0
    else if t == "∨" then 1
    else if t == "→" then 2
    else if t == "↔" then 3
    else 4
  }

  /** The operator token of a level. */
  function Operator(lvl: Level): (t: Token)
    ensures Looseness(t) == Rank(lvl)
  {
    match lvl
    case EquivLevel => "↔"
    case ImpLevel => "→"
    case OrLevel => "∨"
    case AndLevel => "∧"
  }

  /** The level whose parser supplies the operands of `lvl`. */
  function Tighter(lvl: Level): (r: Level)
    requires lvl != AndLevel
    ensures Rank(r) == Rank(lvl) - 1
  {
    if lvl == EquivLevel then ImpLevel
    else if lvl == ImpLevel then OrLevel
    else AndLevel
  }

  /** The node a level builds from its two operands. */
  function Build(lvl: Level, l: Formula, r: Formula): (f: Formula)
  {
    match lvl
    case EquivLevel => Equiv(l, r)
    case ImpLevel => Implies(l, r)
    case OrLevel => Or([l, r])
    case AndLevel => And([l, r])
  }

  predicate IsAlphanumeric(c: char) {
    'a' <= c <= 'z' || 'A' <= c <= 'Z' || '0' <= c <= '9'
  }

  /** A whole token of ASCII letters and digits, at least one. */
  predicate IsName(t: Token) {
    |t| > 0 && forall k :: 0 <= k < |t| ==> IsAlphanumeric(t[k])
  }

  /**
   * The formulas the parser builds: atoms are names, and every And and Or
   * has exactly two operands.
   */
  predicate Built(f: Formula) {
    match f
    case Atom(s) => IsName(s)
    case Not(g) => Built(g)
    case And(fs) => |fs| == 2 && Built(fs[0]) && Built(fs[1])
    case Or(fs) => |fs| == 2 && Built(fs[0]) && Built(fs[1])
    case Implies(p, q) => Built(p) && Built(q)
    case Equiv(l, r) => Built(l) && Built(r)
  }

  // ---------------------------------------------------------------------------
  // The grammar, as functions from a position to a node and the next position
  // ---------------------------------------------------------------------------

  /** `parse_atom`: a parenthesised formula or a name. */
  function Primary(ts: seq<Token>, i: nat): (r: Result<(Formula, nat)>)
    requires i <= |ts|
    ensures r.Ok? ==> i < r.value.1 <= |ts| && Built(r.value.0)
    decreases |ts| - i, 0
  {
    if i >= |ts| then Err("Unexpected end of tokens.")
    else if ts[i] == LeftParen then
      match Binary(ts, EquivLevel, i + 1)
      case Err(m) => Err(m)
      case Ok((node, j)) =>
        if j >= |ts| || ts[j] != RightParen then Err("Missing closing parenthesis.")
        else Ok((node, j + 1))
    else if IsName(ts[i]) then Ok((Atom(ts[i]), i + 1))
    else Err("Unexpected token: " + ts[i])
  }

  /** `parse_not`: each leading ¬ wraps what follows in a Not. */
  function NotChain(ts: seq<Token>, i: nat): (r: Result<(Formula, nat)>)
    requires i <= |ts|
    ensures r.Ok? ==> i < r.value.1 <= |ts| && Built(r.value.0)
    decreases |ts| - i, 1
  {
    if i < |ts| && ts[i] == NotToken then
      match NotChain(ts, i + 1)
      case Err(m) => Err(m)
      case Ok((g, j)) => Ok((Not(g), j))
    else Primary(ts, i)
  }

  /** One operand of a level: the next tighter level, or `parse_not` under ∧. */
  function Operand(ts: seq<Token>, lvl: Level, i: nat): (r: Result<(Formula, nat)>)
    requires i <= |ts|
    ensures r.Ok? ==> i < r.value.1 <= |ts| && Built(r.value.0)
    decreases |ts| - i, 2 * Rank(lvl) + 2
  {
    if lvl == AndLevel then NotChain(ts, i) else Binary(ts, Tighter(lvl), i)
  }

  /** `parse_equiv`, `parse_imp`, `parse_or` and `parse_and`: operands joined by the level's operator. */
  function Binary(ts: seq<Token>, lvl: Level, i: nat): (r: Result<(Formula, nat)>)
    requires i <= |ts|
    ensures r.Ok? ==> i < r.value.1 <= |ts| && Built(r.value.0)
    decreases |ts| - i, 2 * Rank(lvl) + 3
  {
    match Operand(ts, lvl, i)
    case Err(m) => Err(m)
    case Ok((node, j)) => BinaryRest(ts, lvl, node, j)
  }

  /** The `while` loop of a binary level, from the node built so far at position `j`. */
  function BinaryRest(ts: seq<Token>, lvl: Level, node: Formula, j: nat): (r: Result<(Formula, nat)>)
    requires j <= |ts| && Built(node)
    ensures r.Ok? ==> j <= r.value.1 <= |ts| && Built(r.value.0)
    decreases |ts| - j, 0
  {
    if j < |ts| && ts[j] == Operator(lvl) then
      match Operand(ts, lvl, j + 1)
      case Err(m) => Err(m)
      case Ok((right, k)) => BinaryRest(ts, lvl, Build(lvl, node, right), k)
    else Ok((node, j))
  }

  /** `str` of a list of tokens: each quoted, separated by commas, in brackets. */
  function ListRepr(ts: seq<Token>): string {
    "[" + QuotedItems(ts) + "]"
  }

  function QuotedItems(ts: seq<Token>): string {
    if ts == [] then ""
    else if |ts| == 1 then "'" + ts[0] + "'"
    else "'" + ts[0] + "', " + QuotedItems(ts[1..])
  }

  /** `parse_formula`: a whole formula that consumes every token. */
  function Parsed(ts: seq<Token>): (r: Result<Formula>)
    ensures r.Ok? ==> Built(r.value)
  {
    match Binary(ts, EquivLevel, 0)
    case Err(m) => Err(m)
    case Ok((root, next)) =>
      if next != |ts| then Err("Extra tokens after parsing: " + ListRepr(ts[next..]))
      else Ok(root)
  }

  // ---------------------------------------------------------------------------
  // The parser as the source writes it: loops for the binary levels
  // ---------------------------------------------------------------------------

  method ParseAtom(ts: seq<Token>, index: nat) returns (r: Result<(Formula, nat)>)
    requires index <= |ts|
    ensures r == Primary(ts, index)
    decreases |ts| - index, 0
  {
    if index >= |ts| {
      return Err("Unexpected end of tokens.");
    }
    var t := ts[index];
    if t == LeftParen {
      var inner := ParseLevel(ts, EquivLevel, index + 1);
      if inner.Err? {
        return Err(inner.message);
      }
      var (node, newIdx) := inner.value;
      if newIdx >= |ts| || ts[newIdx] != RightParen {
        return Err("Missing closing parenthesis.");
      }
      return Ok((node, newIdx + 1));
    } else if IsName(t) {
      return Ok((Atom(t), index + 1));
    } else {
      return Err("Unexpected token: " + t);
    }
  }

  method ParseNot(ts: seq<Token>, index: nat) returns (r: Result<(Formula, nat)>)
    requires index <= |ts|
    ensures r == NotChain(ts, index)
    decreases |ts| - index, 1
  {
    if index < |ts| && ts[index] == NotToken {
      var sub := ParseNot(ts, index + 1);
      if sub.Err? {
        return Err(sub.message);
      }
      return Ok((Not(sub.value.0), sub.value.1));
    }
    r := ParseAtom(ts, index);
  }

  method ParseOperand(ts: seq<Token>, lvl: Level, index: nat) returns (r: Result<(Formula, nat)>)
    requires index <= |ts|
    ensures r == Operand(ts, lvl, index)
    decreases |ts| - index, 2 * Rank(lvl) + 2
  {
    if lvl == AndLevel {
      r := ParseNot(ts, index);
    } else {
      r := ParseLevel(ts, Tighter(lvl), index);
    }
  }

  /** One binary level: an operand, then operator and operand while the operator follows. */
  method ParseLevel(ts: seq<Token>, lvl: Level, start: nat) returns (r: Result<(Formula, nat)>)
    requires start <= |ts|
    ensures r == Binary(ts, lvl, start)
    decreases |ts| - start, 2 * Rank(lvl) + 3
  {
    var first := ParseOperand(ts, lvl, start);
    if first.Err? {
      return Err(first.message);
    }
    var (node, index) := first.value;
    while index < |ts| && ts[index] == Operator(lvl)
      invariant start < index <= |ts| && Built(node)
      invariant BinaryRest(ts, lvl, node, index) == Binary(ts, lvl, start)
      decreases |ts| - index
    {
      index := index + 1;
      var right := ParseOperand(ts, lvl, index);
      if right.Err? {
        return Err(right.message);
      }
      node := Build(lvl, node, right.value.0);
      index := right.value.1;
    }
    return Ok((node, index));
  }

  method ParseFormula(ts: seq<Token>) returns (r: Result<Formula>)
    ensures r == Parsed(ts)
  {
    var root := ParseLevel(ts, EquivLevel, 0);
    if root.Err? {
      return Err(root.message);
    }
    var (node, nextPos) := root.value;
    if nextPos != |ts| {
      return Err("Extra tokens after parsing: " + ListRepr(ts[nextPos..]));
    }
    return Ok(node);
  }
}
