/** The compiler from a subscriber's list of event names to a filter expression. */
module NotificationFilter {
  import opened Wrappers
  import opened Expressions

  const OBJECT_CHANGED := "dm:object-changed"
  const INSTANCE_ADDED := "dm:instance-added"
  const INSTANCE_REMOVED := "dm:instance-removed"

  /** The bits of the bitmap. */
  datatype EventClass = ValueChanged | ObjectCreation | ObjectDeletion | Custom

  const ALL: set<EventClass> := {ValueChanged, ObjectCreation, ObjectDeletion, Custom}

  /** The data model notification behind a friendly event name; other names stay. */
  function Translate(name: string): string {
    if name == "ValueChange" then OBJECT_CHANGED
    else if name == "ObjectCreation" then INSTANCE_ADDED
    else if name == "ObjectDeletion" then INSTANCE_REMOVED
    else name
  }

  /** The bit that a name in the list sets. */
  function Requests(name: string): EventClass {
    if name == "ValueChange" then ValueChanged
    else if name == "ObjectCreation" then ObjectCreation
    else if name == "ObjectDeletion" then ObjectDeletion
    else Custom
  }

  function Translated(names: seq<string>): (r: seq<string>)
    ensures |r| == |names|
    ensures forall i :: 0 <= i < |names| ==> r[i] == Translate(names[i])
  {
    seq(|names|, i requires 0 <= i < |names| => Translate(names[i]))
  }

  function Requested(names: seq<string>): set<EventClass> { set n | n in names :: Requests(n) }

  // ----- the token strings -----

  function NameTokens(names: seq<string>): seq<Token>
    requires names != []
  {
    if |names| == 1 then [Str(names[0]), RBracket] else [Str(names[0]), Comma] + NameTokens(names[1..])
  }

  /** `(notification in [...])` */
  function InList(names: seq<string>): seq<Token>
    requires names != []
  {
    [LParen, Notification, In, LBracket] + NameTokens(names) + [RParen]
  }

  const DATA_MODEL: seq<string> := [OBJECT_CHANGED, INSTANCE_ADDED, INSTANCE_REMOVED]

  /** What the event filter adds for a translated list and its bitmap. */
  function EventFilter(names: seq<string>, bitmap: set<EventClass>): seq<Token> {
    if bitmap == {} || bitmap >= ALL then []
    else
      (if names != [] then [LParen] + InList(names) else []) +
      ((if Custom in bitmap then (if names != [] then [Or] else []) + [Token.Not] + InList(DATA_MODEL) else []) +
       (if names != [] then [RParen] else []))
  }

  /** Glues two parts of an expression; an empty part disappears. */
  function Joined(a: seq<Token>, b: seq<Token>): seq<Token> {
    if a == [] then b else if b == [] then a else a + [And] + b
  }

  /** The expression for an untranslated list (None: no list was given) and a user filter. */
  function Built(names: Option<seq<string>>, filter: seq<Token>): seq<Token> {
    Joined(if names == None then [] else EventFilter(Translated(names.value), Requested(names.value)),
           if filter == [] then [] else [LParen] + filter + [RParen])
  }

  // ----- the compiler as it works: a list and a buffer that are edited in place -----

  class Compiler {
    /** The list of names; null when the subscriber gave none. */
    var notifications: array?<string>
    var text: seq<Token>

    constructor (notifications: array?<string>)
      ensures this.notifications == notifications && text == []
    {
      this.notifications := notifications;
      text := [];
    }

    /** Replaces friendly names in the list and collects the bits of the names that were met. */
    method TranslateNotificationNames(before: set<EventClass>) returns (bitmap: set<EventClass>)
      modifies notifications
      ensures notifications == null ==> bitmap == ALL
      ensures notifications != null ==>
                notifications[..] == Translated(old(notifications[..])) &&
                bitmap == before + Requested(old(notifications[..]))
    {
      bitmap := before;
      if notifications == null {
        bitmap := ALL;
      } else {
        hide Translate, Requests;
        var i := 0;
        ghost var names := notifications[..];
        while i < notifications.Length
          invariant 0 <= i <= notifications.Length
          invariant forall j :: 0 <= j < i ==> notifications[j] == Translate(names[j])
          invariant forall j :: i <= j < |names| ==> notifications[j] == names[j]
          invariant bitmap == before + Requested(names[..i])
        {
          assert names[..i + 1] == names[..i] + [names[i]];
          assert Requested(names[..i + 1]) == Requested(names[..i]) + {Requests(names[i])};
          var bit := TranslateAt(i);
          bitmap := bitmap + {bit};
          i := i + 1;
        }
        assert names[..i] == names;
      }
    }

    /** One name: replaced when it is a friendly one; yields its bit. */
    method TranslateAt(i: nat) returns (bit: EventClass)
      requires notifications != null && i < notifications.Length
      modifies notifications
      ensures notifications[i] == Translate(old(notifications[i])) && bit == Requests(old(notifications[i]))
      ensures forall j :: 0 <= j < notifications.Length && j != i ==> notifications[j] == old(notifications[j])
    {
      var n := notifications[i];
      if n == "ValueChange" {
        notifications[i] := OBJECT_CHANGED;
        bit := ValueChanged;
      } else if n == "ObjectCreation" {
        notifications[i] := INSTANCE_ADDED;
        bit := ObjectCreation;
      } else if n == "ObjectDeletion" {
        notifications[i] := INSTANCE_REMOVED;
        bit := ObjectDeletion;
      } else {
        bit := Custom;
      }
    }

    method AddEventFilter(bitmap: set<EventClass>)
      requires notifications != null
      modifies `text
      ensures text == Joined(old(text), EventFilter(notifications[..], bitmap))
    {
      var sep: seq<Token> := [];
      var close := false;
      ghost var start, piece := text, [];
      if text != [] {
        sep := [And];
      }
      ghost var glue := sep;
      if bitmap != {} && !(bitmap >= ALL) {
        if notifications.Length != 0 {
          text := text + sep + [LParen] + InList(notifications[..]);
          piece := [LParen] + InList(notifications[..]);
          assert text == start + glue + piece;
          sep := [Or];
          close := true;
        }
        if Custom in bitmap {
          ghost var more := (if close then [Or] else []) + [Token.Not] + InList(DATA_MODEL);
          text := text + sep + [Token.Not] + InList(DATA_MODEL);
          assert text == start + glue + (piece + more);
          piece := piece + more;
        }
        if close {
          text := text + [RParen];
          assert text == start + glue + (piece + [RParen]);
          piece := piece + [RParen];
        }
        assert piece == EventFilter(notifications[..], bitmap);
      }
    }

    method BuildExpression(filter: seq<Token>)
      requires text == []
      modifies notifications, `text
      ensures notifications != null ==> notifications[..] == Translated(old(notifications[..]))
      ensures text == Built(if notifications == null then None else Some(old(notifications[..])), filter)
    {
      hide Translate, Requests, EventFilter, InList;
      var sep: seq<Token> := [];
      if notifications != null {
        ghost var names := notifications[..];
        var bitmap := TranslateNotificationNames({});
        assert bitmap == Requested(names) && notifications[..] == Translated(names);
        AddEventFilter(bitmap);
        if text != [] {
          sep := [And];
        }
      }
      ghost var events := text;
      if filter != [] {
        text := text + sep + [LParen] + filter + [RParen];
        assert text == events + sep + ([LParen] + filter + [RParen]);
      }
    }
  }

  // ----- what the generated text means -----

  /** The class an event belongs to. */
  function ClassOf(notification: string): EventClass {
    if notification == OBJECT_CHANGED then ValueChanged
    else if notification == INSTANCE_ADDED then ObjectCreation
    else if notification == INSTANCE_REMOVED then ObjectDeletion
    else Custom
  }

  /** A name that is a data model notification already, not a friendly or custom one. */
  predicate IsRaw(name: string) { ClassOf(name) != Custom }

  lemma {:induction false} ParseNameTokens(names: seq<string>, rest: seq<Token>)
    requires names != []
    ensures ParseNames(NameTokens(names) + rest) == Some((names, rest))
  {
    var ts := NameTokens(names) + rest;
    if |names| == 1 {
      assert ts[2..] == rest && names == [names[0]];
    } else {
      ParseNameTokens(names[1..], rest);
      assert ts[2..] == NameTokens(names[1..]) + rest;
      assert names == [names[0]] + names[1..];
    }
  }

  /** A list test in parentheses is an operand, whatever follows it. */
  lemma ParseInList(x: Syntax, names: seq<string>, rest: seq<Token>)
    requires names != []
    ensures Parse(x, 0, InList(names) + rest) == Some((OneOf(names), rest))
  {
    var inner := [Notification, In, LBracket] + (NameTokens(names) + ([RParen] + rest));
    ParseNameTokens(names, [RParen] + rest);
    assert inner[3..] == NameTokens(names) + ([RParen] + rest);
    assert Parse(x, 0, inner) == Some((OneOf(names), [RParen] + rest));
    ParseOperand(x, 1, inner, OneOf(names), [RParen] + rest);
    ParseOperand(x, 2, inner, OneOf(names), [RParen] + rest);
    assert (InList(names) + rest)[1..] == inner;
    assert ([RParen] + rest)[1..] == rest;
  }

  /** A level whose first operand is followed by something that is no operator is that operand. */
  lemma ParseOperand(x: Syntax, level: nat, ts: seq<Token>, e: Expr, rest: seq<Token>)
    requires level > 0 && Parse(x, level - 1, ts) == Some((e, rest))
    requires rest == [] || rest[0] !in {Token.And, Token.Or}
    ensures Parse(x, level, ts) == Some((e, rest))
  {
  }

  /** Two operands with one operator between them, at whatever level that operator is. */
  lemma ParseBinary(x: Syntax, ts: seq<Token>, l: Expr, op: Token, more: seq<Token>, r: Expr, rest: seq<Token>)
    requires op == Token.And || op == Token.Or
    requires Parse(x, 0, ts) == Some((l, [op] + more)) && Parse(x, 0, more) == Some((r, rest))
    requires rest == [] || rest[0] !in {Token.And, Token.Or}
    ensures Parse(x, 2, ts) == Some((Binary(op, l, r), rest))
  {
    var mid := [op] + more;
    assert mid[1..] == more && mid[0] == op;
    if op in x.tight {
      assert Tail(x, 1, l, mid) == Some((Binary(op, l, r), rest));
      ParseOperand(x, 2, ts, Binary(op, l, r), rest);
    } else {
      assert Parse(x, 1, ts) == Some((l, mid));
      ParseOperand(x, 1, more, r, rest);
      assert Tail(x, 2, l, mid) == Some((Binary(op, l, r), rest));
    }
  }
}
