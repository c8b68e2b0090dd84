/** Event filter expressions as token strings: their grammar, a parser for it, and their meaning. */
module Expressions {
  import opened Wrappers

  /** `Atom` stands for any other condition a user may put into a filter. */
  datatype Token =
    | LParen | RParen | LBracket | RBracket | Comma
    | And | Or | Not | In | Notification
    | Str(text: string)
    | Atom(id: nat)

  datatype Expr =
    | Condition(id: nat)
    | OneOf(names: seq<string>)
    | Negation(e: Expr)
    | Binary(op: Token, left: Expr, right: Expr)

  /** An event, as far as a filter can see it. */
  datatype Env = Env(notification: string, holds: nat -> bool)

  predicate Eval(e: Expr, env: Env) {
    match e
    case Condition(id) => env.holds(id)
    case OneOf(names) => env.notification in names
    case Negation(f) => !Eval(f, env)
    case Binary(op, l, r) => if op == And then Eval(l, env) && Eval(r, env) else Eval(l, env) || Eval(r, env)
  }

  /** The operators of level 1 bind tighter than those of level 2.  Which of the two operators is in
      which level is a parameter: nothing below depends on the precedence that is in use. */
  datatype Syntax = Syntax(tight: set<Token>)

  function Operators(x: Syntax, level: nat): set<Token> {
    if level == 1 then x.tight * {And, Or} else if level == 2 then {And, Or} - x.tight else {}
  }

  /** A literal list: at least one string, commas between, up to the closing bracket. */
  function ParseNames(ts: seq<Token>): (r: Option<(seq<string>, seq<Token>)>)
    ensures r.Some? ==> |r.value.1| < |ts|
  {
    if |ts| < 2 || !ts[0].Str? then None
    else if ts[1] == RBracket then Some(([ts[0].text], ts[2..]))
    else if ts[1] != Comma then None
    else
      var rest := ParseNames(ts[2..]);
      if rest == None then None else Some(([ts[0].text] + rest.value.0, rest.value.1))
  }

  /** Level 2 is a whole expression, level 0 an operand. */
  function Parse(x: Syntax, level: nat, ts: seq<Token>): (r: Option<(Expr, seq<Token>)>)
    ensures r.Some? ==> |r.value.1| < |ts|
    decreases |ts|, level, 1
  {
    if level > 0 then
      var first := Parse(x, level - 1, ts);
      if first == None then None else Tail(x, level, first.value.0, first.value.1)
    else if ts == [] then None
    else
      match ts[0]
      case Not =>
        var f := Parse(x, 0, ts[1..]);
        if f == None then None else Some((Negation(f.value.0), f.value.1))
      case LParen =>
        var f := Parse(x, 2, ts[1..]);
        if f == None || f.value.1 == [] || f.value.1[0] != RParen then None
        else Some((f.value.0, f.value.1[1..]))
      case Notification =>
        if |ts| < 3 || ts[1] != In || ts[2] != LBracket then None
        else
          var names := ParseNames(ts[3..]);
          if names == None then None else Some((OneOf(names.value.0), names.value.1))
      case Atom(id) => Some((Condition(id), ts[1..]))
      case _ => None
  }

  /** Further operands of one level, grouped to the left. */
  function Tail(x: Syntax, level: nat, left: Expr, ts: seq<Token>): (r: Option<(Expr, seq<Token>)>)
    requires level > 0
    ensures r.Some? ==> |r.value.1| <= |ts|
    decreases |ts|, level, 0
  {
    if ts == [] || ts[0] !in Operators(x, level) then Some((left, ts))
    else
      var right := Parse(x, level - 1, ts[1..]);
      if right == None then None else Tail(x, level, Binary(ts[0], left, right.value.0), right.value.1)
  }

  /** The expression that a complete token string stands for. */
  function Meaning(x: Syntax, ts: seq<Token>): Option<Expr> {
    var p := Parse(x, 2, ts);
    if p.Some? && p.value.1 == [] then Some(p.value.0) else None
  }

  // ----- an expression is not read differently because something follows its closing parenthesis -----

  lemma {:induction false} NamesExtend(ts: seq<Token>, more: seq<Token>)
    requires ParseNames(ts).Some?
    ensures ParseNames(ts + more) == Some((ParseNames(ts).value.0, ParseNames(ts).value.1 + more))
  {
    assert (ts + more)[2..] == ts[2..] + more;
    if ts[1] != RBracket {
      NamesExtend(ts[2..], more);
    }
  }

  lemma {:induction false} ParseExtends(x: Syntax, level: nat, ts: seq<Token>, more: seq<Token>)
    requires Parse(x, level, ts).Some? && more != [] && more[0] == RParen
    ensures Parse(x, level, ts + more) == Some((Parse(x, level, ts).value.0, Parse(x, level, ts).value.1 + more))
    decreases |ts|, level, 1
  {
    if level > 0 {
      var first := Parse(x, level - 1, ts);
      ParseExtends(x, level - 1, ts, more);
      TailExtends(x, level, first.value.0, first.value.1, more);
    } else {
      assert (ts + more)[1..] == ts[1..] + more;
      match ts[0]
      case Not => ParseExtends(x, 0, ts[1..], more);
      case LParen =>
        ParseExtends(x, 2, ts[1..], more);
        var rest := Parse(x, 2, ts[1..]).value.1;
        assert (rest + more)[1..] == rest[1..] + more;
      case Notification =>
        NamesExtend(ts[3..], more);
        assert (ts + more)[3..] == ts[3..] + more;
      case Atom(id) =>
    }
  }

  lemma {:induction false} TailExtends(x: Syntax, level: nat, left: Expr, ts: seq<Token>, more: seq<Token>)
    requires level > 0 && Tail(x, level, left, ts).Some? && more != [] && more[0] == RParen
    ensures Tail(x, level, left, ts + more) ==
            Some((Tail(x, level, left, ts).value.0, Tail(x, level, left, ts).value.1 + more))
    decreases |ts|, level, 0
  {
    if ts != [] && ts[0] in Operators(x, level) {
      var right := Parse(x, level - 1, ts[1..]);
      assert (ts + more)[1..] == ts[1..] + more;
      ParseExtends(x, level - 1, ts[1..], more);
      TailExtends(x, level, Binary(ts[0], left, right.value.0), right.value.1, more);
    }
  }

  /** An operand in parentheses. */
  lemma ParseParenthesised(x: Syntax, ts: seq<Token>, rest: seq<Token>)
    requires Meaning(x, ts).Some?
    ensures Parse(x, 0, [LParen] + ts + [RParen] + rest) == Some((Meaning(x, ts).value, rest))
  {
    var all := [LParen] + ts + [RParen] + rest;
    var more := [RParen] + rest;
    ParseExtends(x, 2, ts, more);
    assert all[1..] == ts + more && more[1..] == rest;
    assert [] + more == more;
  }
}
