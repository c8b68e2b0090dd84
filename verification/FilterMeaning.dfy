/** What a compiled notification filter lets through, for every list of names and every user filter. */
module FilterMeaning {
  import opened Wrappers
  import opened Expressions
  import opened NotificationFilter

  /** No expression means no restriction. */
  predicate Accepts(x: Syntax, ts: seq<Token>, env: Env) {
    ts == [] || (Meaning(x, ts).Some? && Eval(Meaning(x, ts).value, env))
  }

  /** Independent of the compiler: an event passes when nothing was asked for, when its class was asked
      for, or when it was named in the list. */
  predicate Wanted(names: seq<string>, notification: string) {
    names == [] || ClassOf(notification) in Requested(names) || notification in Translated(names)
  }

  // ----- names and classes -----

  lemma Constants()
    ensures OBJECT_CHANGED != INSTANCE_ADDED && OBJECT_CHANGED != INSTANCE_REMOVED && INSTANCE_ADDED != INSTANCE_REMOVED
    ensures forall n :: n in DATA_MODEL <==> ClassOf(n) != Custom
    ensures forall n :: IsRaw(n) ==> Translate(n) == n && Requests(n) == Custom
  {
    assert OBJECT_CHANGED[3] == 'o' && INSTANCE_ADDED[3] == 'i' && INSTANCE_REMOVED[3] == 'i';
    assert INSTANCE_ADDED[12] == 'a' && INSTANCE_REMOVED[12] == 'r';
    forall n | n in DATA_MODEL ensures n != "ValueChange" && n != "ObjectCreation" && n != "ObjectDeletion" {
      assert n[0] == 'd';
    }
  }

  /** A friendly name stands for the notification of its class; any other name asks for custom events. */
  lemma TranslateAndClass(m: string)
    ensures Requests(m) != Custom ==> ClassOf(Translate(m)) == Requests(m)
    ensures Requests(m) == Custom ==> Translate(m) == m
  {
    Constants();
  }

  lemma ClassNames(n: string)
    ensures ClassOf(n) == ValueChanged ==> n == OBJECT_CHANGED
    ensures ClassOf(n) == ObjectCreation ==> n == INSTANCE_ADDED
    ensures ClassOf(n) == ObjectDeletion ==> n == INSTANCE_REMOVED
  {
  }

  lemma SameClassSameName(n: string, m: string)
    requires ClassOf(n) == ClassOf(m) != Custom
    ensures n == m
  {
    ClassNames(n);
    ClassNames(m);
  }

  /** A data model notification whose class was asked for is in the translated list. */
  lemma RequestedIsListed(names: seq<string>, n: string)
    requires ClassOf(n) in Requested(names) && ClassOf(n) != Custom
    ensures n in Translated(names)
  {
    hide ClassOf, Translate, Requests;
    var i :| 0 <= i < |names| && Requests(names[i]) == ClassOf(n);
    TranslateAndClass(names[i]);
    SameClassSameName(n, Translate(names[i]));
    assert Translated(names)[i] == n;
  }

  lemma RequestedNothing(names: seq<string>)
    ensures Requested(names) == {} <==> names == []
  {
    if names != [] {
      assert Requests(names[0]) in Requested(names);
    }
  }

  // ----- reading the generated text -----

  function FilterExpr(names: seq<string>, bitmap: set<EventClass>): Expr {
    if Custom in bitmap then Binary(Token.Or, OneOf(names), Negation(OneOf(DATA_MODEL))) else OneOf(names)
  }

  lemma ParseEventFilter(x: Syntax, names: seq<string>, bitmap: set<EventClass>, rest: seq<Token>)
    requires names != [] && bitmap != {} && !(bitmap >= ALL)
    ensures EventFilter(names, bitmap) != []
    ensures Parse(x, 0, EventFilter(names, bitmap) + rest) == Some((FilterExpr(names, bitmap), rest))
  {
    hide Parse, InList;
    var close := [RParen] + rest;
    var inner;
    if Custom in bitmap {
      var negated := [Token.Not] + (InList(DATA_MODEL) + close);
      inner := InList(names) + ([Token.Or] + negated);
      ParseInList(x, names, [Token.Or] + negated);
      ParseInList(x, DATA_MODEL, close);
      ParseNegation(x, InList(DATA_MODEL) + close, OneOf(DATA_MODEL), close);
      ParseBinary(x, inner, OneOf(names), Token.Or, negated, Negation(OneOf(DATA_MODEL)), close);
    } else {
      inner := InList(names) + close;
      ParseInList(x, names, close);
      ParseOperand(x, 1, inner, OneOf(names), close);
      ParseOperand(x, 2, inner, OneOf(names), close);
    }
    ParseGroup(x, inner, FilterExpr(names, bitmap), rest);
    assert EventFilter(names, bitmap) + rest == [LParen] + inner;
  }

  lemma ParseNegation(x: Syntax, ts: seq<Token>, e: Expr, rest: seq<Token>)
    requires Parse(x, 0, ts) == Some((e, rest))
    ensures Parse(x, 0, [Token.Not] + ts) == Some((Negation(e), rest))
  {
    assert ([Token.Not] + ts)[1..] == ts;
  }

  lemma ParseGroup(x: Syntax, inner: seq<Token>, e: Expr, rest: seq<Token>)
    requires Parse(x, 2, inner) == Some((e, [RParen] + rest))
    ensures Parse(x, 0, [LParen] + inner) == Some((e, rest))
  {
    assert ([LParen] + inner)[1..] == inner && ([RParen] + rest)[1..] == rest;
  }

  lemma OperandMeans(x: Syntax, ts: seq<Token>, e: Expr)
    requires Parse(x, 0, ts) == Some((e, []))
    ensures Meaning(x, ts) == Some(e)
  {
    hide Parse;
    ParseOperand(x, 1, ts, e, []);
    ParseOperand(x, 2, ts, e, []);
  }

  /** Joining two operands with `&&` means that both hold; an empty one imposes nothing. */
  lemma JoinedMeans(x: Syntax, a: seq<Token>, ea: Expr, b: seq<Token>, eb: Expr, env: Env)
    requires a != [] ==> forall rest :: Parse(x, 0, a + rest) == Some((ea, rest))
    requires b != [] ==> Parse(x, 0, b) == Some((eb, []))
    ensures Joined(a, b) == [] || Meaning(x, Joined(a, b)).Some?
    ensures Accepts(x, Joined(a, b), env) <==> (a == [] || Eval(ea, env)) && (b == [] || Eval(eb, env))
  {
    hide Parse;
    if a == [] {
      if b != [] {
        OperandMeans(x, b, eb);
      }
    } else {
      assert a + [] == a;
      OperandMeans(x, a, ea);
      if b != [] {
        assert a + [Token.And] + b == a + ([Token.And] + b);
        ParseBinary(x, a + [Token.And] + b, ea, Token.And, b, eb, []);
      }
    }
  }

  lemma EvalFilterExpr(names: seq<string>, env: Env)
    requires names != [] && !(Requested(names) >= ALL)
    ensures Eval(FilterExpr(Translated(names), Requested(names)), env) <==> Wanted(names, env.notification)
  {
    hide ClassOf, Translate, Requests, Translated, IsRaw;
    var n := env.notification;
    Constants();
    if ClassOf(n) in Requested(names) && ClassOf(n) != Custom {
      RequestedIsListed(names, n);
    }
    assert n in Translated(names) <==> Eval(OneOf(Translated(names)), env);
    assert ClassOf(n) == Custom <==> Eval(Negation(OneOf(DATA_MODEL)), env);
  }

  lemma AllClassesWanted(names: seq<string>, n: string)
    requires Requested(names) >= ALL
    ensures Wanted(names, n)
  {
    assert ClassOf(n) in ALL;
  }

  /** For every list of names and every well-formed user filter the generated text is well-formed, and
      it accepts an event exactly when the list wants it and the user filter holds, under any
      precedence of the two operators. */
  lemma BuiltMeans(x: Syntax, names: Option<seq<string>>, filter: seq<Token>, env: Env)
    ensures filter == [] || Meaning(x, filter).Some? ==>
              var ts := Built(names, filter);
              (ts == [] || Meaning(x, ts).Some?) &&
              (Accepts(x, ts, env) <==>
                 (names == None || Wanted(names.value, env.notification)) && Accepts(x, filter, env))
  {
    hide Parse, Wanted, Meaning, Translated, Requested;
    if filter == [] || Meaning(x, filter).Some? {
      var eb := if filter == [] then Condition(0) else Meaning(x, filter).value;
      var b := if filter == [] then [] else [LParen] + filter + [RParen];
      if filter != [] {
        ParseParenthesised(x, filter, []);
        assert b + [] == b;
      }
      if names == None {
        JoinedMeans(x, [], Condition(0), b, eb, env);
      } else {
        NamesMean(x, names.value, b, eb, env);
      }
    }
  }

  lemma NamesMean(x: Syntax, names: seq<string>, b: seq<Token>, eb: Expr, env: Env)
    requires b != [] ==> Parse(x, 0, b) == Some((eb, []))
    ensures var ts := Joined(EventFilter(Translated(names), Requested(names)), b);
            (ts == [] || Meaning(x, ts).Some?) &&
            (Accepts(x, ts, env) <==> Wanted(names, env.notification) && (b == [] || Eval(eb, env)))
  {
    hide Parse, Meaning, Accepts, EventFilter, Wanted;
    var list, bitmap := Translated(names), Requested(names);
    var a := EventFilter(list, bitmap);
    RequestedNothing(names);
    if names == [] || bitmap >= ALL {
      NoRestriction(names, env.notification);
      JoinedMeans(x, a, Condition(0), b, eb, env);
    } else {
      forall rest ensures Parse(x, 0, a + rest) == Some((FilterExpr(list, bitmap), rest)) {
        ParseEventFilter(x, list, bitmap, rest);
      }
      ParseEventFilter(x, list, bitmap, []);
      JoinedMeans(x, a, FilterExpr(list, bitmap), b, eb, env);
      EvalFilterExpr(names, env);
    }
  }

  lemma NoRestriction(names: seq<string>, n: string)
    requires names == [] || Requested(names) >= ALL
    ensures Wanted(names, n) && EventFilter(Translated(names), Requested(names)) == []
  {
    RequestedNothing(names);
    if names != [] {
      AllClassesWanted(names, n);
    }
  }

  // ----- which events a list of names asks for -----

  /** What the names mean to a subscriber, in plain text: which events a list without a user filter lets
      through. */
  lemma AcceptedEvents(x: Syntax, names: seq<string>, env: Env)
    ensures var n := env.notification;
            Accepts(x, Built(Some(names), []), env) <==>
            names == [] ||
            ("ValueChange" in names && n == "dm:object-changed") ||
            ("ObjectCreation" in names && n == "dm:instance-added") ||
            ("ObjectDeletion" in names && n == "dm:instance-removed") ||
            exists m :: m in names && m !in {"ValueChange", "ObjectCreation", "ObjectDeletion"} &&
                        (n == m || n !in {"dm:object-changed", "dm:instance-added", "dm:instance-removed"})
  {
    hide Accepts, Built, Translated, Translate, Requests, ClassOf, Requested;
    BuiltMeans(x, Some(names), [], env);
    NoFilterAccepts(x, env);
    WantedInWords(names, env.notification);
  }

  lemma WantedInWords(names: seq<string>, n: string)
    ensures Wanted(names, n) <==>
            names == [] ||
            ("ValueChange" in names && n == "dm:object-changed") ||
            ("ObjectCreation" in names && n == "dm:instance-added") ||
            ("ObjectDeletion" in names && n == "dm:instance-removed") ||
            exists m :: m in names && m !in {"ValueChange", "ObjectCreation", "ObjectDeletion"} &&
                        (n == m || n !in {"dm:object-changed", "dm:instance-added", "dm:instance-removed"})
  {
    hide Translated, Translate, Requests, ClassOf, Requested;
    if Wanted(names, n) && names != [] {
      var m := Asks(names, n);
      NameInWords(m, n);
    }
    forall m | m in names ensures NameAsks(m, n) ==> Wanted(names, n) {
      AskedIsWanted(names, m, n);
      NameInWords(m, n);
    }
    NameInWords("ValueChange", n);
    NameInWords("ObjectCreation", n);
    NameInWords("ObjectDeletion", n);
    forall m | m in names && m !in {"ValueChange", "ObjectCreation", "ObjectDeletion"} &&
               (n == m || n !in {"dm:object-changed", "dm:instance-added", "dm:instance-removed"})
      ensures Wanted(names, n)
    {
      NameInWords(m, n);
    }
  }

  /** One name asks for the event. */
  predicate NameAsks(m: string, n: string) { Requests(m) == ClassOf(n) || Translate(m) == n }

  lemma NameInWords(m: string, n: string)
    ensures NameAsks(m, n) <==>
            if m == "ValueChange" then n == "dm:object-changed"
            else if m == "ObjectCreation" then n == "dm:instance-added"
            else if m == "ObjectDeletion" then n == "dm:instance-removed"
            else n == m || n !in {"dm:object-changed", "dm:instance-added", "dm:instance-removed"}
  {
    ThreeNames();
  }

  lemma ThreeNames()
    ensures "ValueChange" != "ObjectCreation" && "ValueChange" != "ObjectDeletion"
    ensures "ObjectCreation" != "ObjectDeletion"
    ensures "dm:object-changed" != "dm:instance-added" && "dm:object-changed" != "dm:instance-removed"
    ensures "dm:instance-added" != "dm:instance-removed"
  {
    assert "ObjectCreation"[6] == 'C' && "ObjectDeletion"[6] == 'D' && "ValueChange"[0] == 'V';
    assert "dm:instance-added"[12] == 'a' && "dm:instance-removed"[12] == 'r' && "dm:object-changed"[3] == 'o';
  }

  lemma Asks(names: seq<string>, n: string) returns (m: string)
    requires Wanted(names, n) && names != []
    ensures m in names && NameAsks(m, n)
  {
    hide Translate, Requests, ClassOf;
    if n in Translated(names) {
      var i :| 0 <= i < |names| && Translated(names)[i] == n;
      m := names[i];
    } else {
      m :| m in names && Requests(m) == ClassOf(n);
    }
  }

  lemma AskedIsWanted(names: seq<string>, m: string, n: string)
    requires m in names
    ensures NameAsks(m, n) ==> Wanted(names, n)
  {
    hide Translate, Requests, ClassOf;
    var i :| 0 <= i < |names| && names[i] == m;
    assert Translated(names)[i] == Translate(m) && Requests(m) in Requested(names);
  }

  // ----- when the classes alone decide -----

  /** The classes that were asked for decide about every event exactly when each data model
      notification that the list names directly belongs to one of them. */
  lemma ClassesDecide(names: seq<string>)
    ensures (forall n :: Wanted(names, n) <==> names == [] || ClassOf(n) in Requested(names)) <==>
            (forall m :: m in names && IsRaw(m) ==> ClassOf(m) in Requested(names))
  {
    hide Translate, Requests, ClassOf, Translated, IsRaw;
    Constants();
    if forall m :: m in names && IsRaw(m) ==> ClassOf(m) in Requested(names) {
      forall n ensures Wanted(names, n) <==> names == [] || ClassOf(n) in Requested(names) {
        if n in Translated(names) {
          ListedHasClass(names, n);
        }
      }
    } else {
      var m :| m in names && IsRaw(m) && ClassOf(m) !in Requested(names);
      RawIsListed(names, m);
      assert Wanted(names, m);
    }
  }

  lemma ListedHasClass(names: seq<string>, n: string)
    requires n in Translated(names)
    ensures ClassOf(n) in Requested(names) || (n in names && IsRaw(n))
  {
    hide Translate, Requests, ClassOf;
    var i :| 0 <= i < |names| && Translated(names)[i] == n;
    TranslateAndClass(names[i]);
    assert Requests(names[i]) in Requested(names);
  }

  lemma RawIsListed(names: seq<string>, m: string)
    requires m in names && IsRaw(m)
    ensures m in Translated(names)
  {
    hide Translate, Requests, ClassOf, IsRaw;
    Constants();
    var i :| 0 <= i < |names| && names[i] == m;
    assert Translated(names)[i] == m;
  }

  // ----- translating twice, as happens when access control is on -----

  lemma TranslateTwice(m: string)
    ensures Translate(Translate(m)) == Translate(m) && Requests(Translate(m)) == Custom
  {
    Constants();
    TranslateAndClass(m);
    if Requests(m) != Custom {
      assert IsRaw(Translate(m));
    }
  }

  /** A second translation leaves the list alone, and sees nothing but custom names in it. */
  lemma TranslatedTwice(names: seq<string>)
    ensures Translated(Translated(names)) == Translated(names)
    ensures Requested(Translated(names)) == if names == [] then {} else {Custom}
  {
    hide Translate, Requests;
    var t := Translated(names);
    forall i | 0 <= i < |t| ensures Translated(t)[i] == t[i] && Requests(t[i]) == Custom {
      TranslateTwice(names[i]);
    }
    if names != [] {
      assert t[0] in t;
    }
  }

  /** After two translations every custom event is wanted on top of what was wanted after one. */
  lemma WantedTwice(names: seq<string>, n: string)
    ensures Wanted(Translated(names), n) <==> Wanted(names, n) || ClassOf(n) == Custom
  {
    hide Translate, Requests, ClassOf, Translated, Requested;
    TranslatedTwice(names);
    if ClassOf(n) in Requested(names) && ClassOf(n) != Custom {
      RequestedIsListed(names, n);
    }
    assert names == [] <==> Translated(names) == [];
  }

  /** A list of friendly names alone wants no custom event. */
  lemma CustomIsWanted(names: seq<string>, n: string)
    requires ClassOf(n) == Custom
    ensures Wanted(names, n) <==> names == [] || Custom in Requested(names)
  {
    hide Translate, Requests, ClassOf, Translated, Requested;
    if n in Translated(names) {
      ListedHasClass(names, n);
      CustomIsNotRaw(n);
    }
  }

  lemma CustomIsNotRaw(n: string)
    ensures IsRaw(n) <==> ClassOf(n) != Custom
  {
  }

  predicate WellFormed(x: Syntax, filter: seq<Token>) { filter == [] || Meaning(x, filter).Some? }

  /** After two translations the generated filter accepts every event that it accepts after one. */
  lemma SecondPassWidens(x: Syntax, names: seq<string>, filter: seq<Token>, env: Env)
    requires WellFormed(x, filter)
    ensures Accepts(x, Built(Some(names), filter), env) ==> Accepts(x, Built(Some(Translated(names)), filter), env)
  {
    hide Accepts, Built, Wanted, Meaning;
    BuiltMeans(x, Some(names), filter, env);
    BuiltMeans(x, Some(Translated(names)), filter, env);
    WantedTwice(names, env.notification);
  }

  /** ... and no other event exactly when the list is empty, or asks for custom events, or the user
      filter accepts none of them; a list of friendly names alone lets all the others through. */
  lemma SecondPassIsExact(x: Syntax, names: seq<string>, filter: seq<Token>)
    requires WellFormed(x, filter)
    ensures (forall env: Env :: Accepts(x, Built(Some(Translated(names)), filter), env) <==>
            Accepts(x, Built(Some(names), filter), env)) <==>
            names == [] || Custom in Requested(names) ||
            forall env: Env :: ClassOf(env.notification) == Custom ==> !Accepts(x, filter, env)
  {
    hide Accepts, Built, Wanted, Meaning, ClassOf, Requested, Translated;
    forall env: Env
      ensures (Accepts(x, Built(Some(Translated(names)), filter), env) <==>
              Accepts(x, Built(Some(names), filter), env)) <==>
              names == [] || Custom in Requested(names) ||
              !(ClassOf(env.notification) == Custom && Accepts(x, filter, env))
    {
      BuiltMeans(x, Some(names), filter, env);
      BuiltMeans(x, Some(Translated(names)), filter, env);
      WantedTwice(names, env.notification);
      if ClassOf(env.notification) == Custom {
        CustomIsWanted(names, env.notification);
      }
    }
  }

  /** One friendly name and no user filter: the custom event passes after two translations only. */
  lemma CustomSlipsThrough(x: Syntax, holds: nat -> bool)
    ensures var names, env := ["ValueChange"], Env("custom", holds);
            !Accepts(x, Built(Some(names), []), env) && Accepts(x, Built(Some(Translated(names)), []), env)
  {
    hide Accepts, Built, Wanted, Meaning, Translated;
    var names, env := ["ValueChange"], Env("custom", holds);
    assert ClassOf("custom") == Custom by {
      assert "custom"[0] == 'c' && OBJECT_CHANGED[0] == 'd' && INSTANCE_ADDED[0] == 'd' && INSTANCE_REMOVED[0] == 'd';
    }
    BuiltMeans(x, Some(names), [], env);
    BuiltMeans(x, Some(Translated(names)), [], env);
    WantedTwice(names, "custom");
    CustomIsWanted(names, "custom");
    NoFilterAccepts(x, env);
  }

  lemma NoFilterAccepts(x: Syntax, env: Env)
    ensures Accepts(x, [], env)
  {
  }
}
