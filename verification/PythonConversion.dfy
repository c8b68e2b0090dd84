/** Python values and variants, and the conversions between them. */
module PythonConversion {
  import Wrappers
  import opened PythonTime

  /** Integers are exactly of type int or of a subclass; datetimes are aware and in UTC, and stand for
      their microseconds since 1970. */
  datatype PyValue =
    | None
    | Str(text: string)
    | Bool(b: bool)
    | Int(i: int, exact: bool)
    | Float(f: real)
    | List(items: seq<PyValue>)
    | Dict(entries: map<string, PyValue>)
    | DateTime(t: int)

  datatype IntKind = Int8 | Int16 | Int32 | Fd | Int64 | UInt8 | UInt16 | UInt32 | UInt64

  datatype TextKind = CString | CsvString | SsvString

  datatype Variant =
    | Null
    | Text(tkind: TextKind, text: string)
    | Flag(b: bool)
    | Integer(ikind: IntKind, i: int)
    | Double(f: real)
    | VarList(items: seq<Variant>)
    | Table(entries: map<string, Variant>)
    | Time(ts: Timestamp)

  const TWO_31 := 0x8000_0000
  const TWO_32 := 0x1_0000_0000
  const TWO_63 := 0x8000_0000_0000_0000
  const TWO_64 := 0x1_0000_0000_0000_0000

  predicate FitsInt64(i: int) { -TWO_63 <= i < TWO_63 }

  /** Reading a Python integer as a 64-bit one; out of range it yields -1. */
  function AsLong(i: int): int { if FitsInt64(i) then i else -1 }

  /** The cast to 32 bits. */
  function AsInt32(i: int): int { (i + TWO_31) % TWO_32 - TWO_31 }

  /** A text as a C string: it ends at the first zero character. */
  function CText(s: string): (r: string)
    ensures '\0' !in r && (r == s <==> '\0' !in s)
  {
    if s == "" || s[0] == '\0' then "" else [s[0]] + CText(s[1..])
  }

  /** No two keys are the same C string. */
  predicate KeysDiffer(keys: set<string>) { forall k, l :: k in keys && l in keys && CText(k) == CText(l) ==> k == l }

  /** The conversion has no place for None: it takes whatever it does not know for a datetime, and then
      uses the null pointers that its calls yield. */
  predicate Convertible(v: PyValue) {
    match v
    case None => false
    case List(items) => forall x :: x in items ==> Convertible(x)
    case Dict(entries) => KeysDiffer(entries.Keys) && forall k :: k in entries ==> Convertible(entries[k])
    case DateTime(t) => IsDateTime(t)
    case _ => true
  }

  /** The entries as a table takes them: under C strings, and none under the empty one. */
  function Keyed(t: map<string, Variant>): map<string, Variant>
    requires KeysDiffer(t.Keys)
  {
    map k | k in t && CText(k) != "" :: CText(k) := t[k]
  }

  function ToVariant(v: PyValue): Variant
    requires Convertible(v)
  {
    match v
    case Str(text) => Text(CString, CText(text))
    case Bool(b) => Flag(b)
    case Int(i, exact) => if exact then Integer(Int64, AsLong(i)) else Integer(Int32, AsInt32(AsLong(i)))
    case Float(f) => Double(f)
    case List(items) => VarList(seq(|items|, k requires 0 <= k < |items| => ToVariant(items[k])))
    case Dict(entries) => Table(Keyed(map k | k in entries :: ToVariant(entries[k])))
    case DateTime(t) => Time(ToTimestamp(t))
  }

  function ToPython(v: Variant): PyValue {
    match v
    case Null => None
    case Text(_, text) => Str(text)
    case Flag(b) => Bool(b)
    case Integer(_, i) => Int(i, true)
    case Double(f) => Float(f)
    case VarList(items) => List(seq(|items|, k requires 0 <= k < |items| => ToPython(items[k])))
    case Table(entries) => Dict(map k | k in entries :: ToPython(entries[k]))
    case Time(ts) => DateTime(FromTimestamp(ts))
  }

  /** The values that survive: texts without a zero character, plain integers of 64 bits, times that
      doubles can tell apart, and no empty key, at any depth. */
  predicate Survives(v: PyValue) {
    match v
    case None => false
    case Str(text) => '\0' !in text
    case Int(i, exact) => exact && FitsInt64(i)
    case List(items) => forall x :: x in items ==> Survives(x)
    case Dict(entries) => "" !in entries && forall k :: k in entries ==> '\0' !in k && Survives(entries[k])
    case DateTime(t) => KeepsTime(t)
    case _ => true
  }

  /** Converting to a variant and back is the identity for exactly these values. */
  lemma {:induction false} RoundTrip(v: PyValue)
    requires Convertible(v)
    ensures ToPython(ToVariant(v)) == v <==> Survives(v)
  {
    match v
    case List(items) =>
      forall x | x in items ensures ToPython(ToVariant(x)) == x <==> Survives(x) {
        RoundTrip(x);
      }
      ListBack(items);
    case Dict(entries) =>
      forall k | k in entries ensures ToPython(ToVariant(entries[k])) == entries[k] <==> Survives(entries[k]) {
        RoundTrip(entries[k]);
      }
      DictBack(entries);
    case DateTime(t) =>
      TimeRoundTrip(t);
    case _ =>
  }

  /** An integer of a subclass comes back as a plain one of 32 bits, which is equal modulo 2^32 to what
      was read; the number is the same exactly when it has 32 bits. */
  lemma SubclassIsCut(i: int)
    ensures var back := ToPython(ToVariant(Int(i, false)));
            back.Int? && back.exact && -TWO_31 <= back.i < TWO_31 && (back.i - AsLong(i)) % TWO_32 == 0 &&
            (back.i == i <==> -TWO_31 <= i < TWO_31)
  {
    var a := AsLong(i) + TWO_31;
    DivMod(AsInt32(AsLong(i)) - AsLong(i), TWO_32, -(a / TWO_32), 0);
  }

  lemma ListBack(items: seq<PyValue>)
    requires Convertible(List(items))
    ensures ToPython(ToVariant(List(items))) == List(items) <==> forall x :: x in items ==> ToPython(ToVariant(x)) == x
  {
    var back := ToPython(ToVariant(List(items))).items;
    assert |back| == |items|;
    assert forall k :: 0 <= k < |items| ==> back[k] == ToPython(ToVariant(items[k]));
  }

  lemma KeyedHas(t: map<string, Variant>)
    requires KeysDiffer(t.Keys)
    ensures forall k :: k in t && CText(k) != "" ==> CText(k) in Keyed(t) && Keyed(t)[CText(k)] == t[k]
    ensures forall c :: c in Keyed(t) ==> c != "" && '\0' !in c
  {
    hide CText;
  }

  lemma KeyedPlain(t: map<string, Variant>)
    requires "" !in t && forall k :: k in t ==> '\0' !in k
    ensures KeysDiffer(t.Keys) && Keyed(t) == t
  {
    hide CText;
    assert forall k :: k in t ==> CText(k) == k;
    KeyedHas(t);
    forall c | c in Keyed(t) ensures c in t {
      var k :| k in t && CText(k) != "" && CText(k) == c;
    }
  }

  lemma KeyedMore(t: map<string, Variant>, key: string, v: Variant)
    requires key !in t && KeysDiffer(t.Keys + {key})
    ensures KeysDiffer(t.Keys) && KeysDiffer(t[key := v].Keys)
    ensures Keyed(t[key := v]) == if CText(key) != "" then Keyed(t)[CText(key) := v] else Keyed(t)
  {
    hide *;
    var u := t[key := v];
    assert u.Keys == t.Keys + {key};
    FewerDiffer(t.Keys, key);
    var w := if CText(key) != "" then Keyed(t)[CText(key) := v] else Keyed(t);
    forall c | c in Keyed(u) ensures c in w && w[c] == Keyed(u)[c] {
      var k := KeyedOnly(u, c);
      if k != key {
        KeyedAt(t, k);
        OtherKey(u.Keys, k, key);
      }
    }
    forall c | c in w ensures c in Keyed(u) {
      if c in Keyed(t) {
        var k := KeyedOnly(t, c);
        KeyedAt(u, k);
      } else {
        KeyedAt(u, key);
      }
    }
    assert w.Keys == Keyed(u).Keys;
  }

  lemma FewerDiffer(keys: set<string>, key: string)
    requires KeysDiffer(keys + {key})
    ensures KeysDiffer(keys)
  {
    hide CText;
  }

  lemma OtherKey(keys: set<string>, k: string, l: string)
    requires KeysDiffer(keys) && k in keys && l in keys && k != l
    ensures CText(k) != CText(l)
  {
    hide CText;
  }

  lemma KeyedAt(t: map<string, Variant>, k: string)
    requires KeysDiffer(t.Keys) && k in t && CText(k) != ""
    ensures CText(k) in Keyed(t) && Keyed(t)[CText(k)] == t[k]
  {
    KeyedHas(t);
  }

  lemma KeyedOnly(t: map<string, Variant>, c: string) returns (k: string)
    requires KeysDiffer(t.Keys) && c in Keyed(t)
    ensures k in t && CText(k) == c && c != "" && Keyed(t)[c] == t[k]
  {
    hide CText;
    k :| k in t && CText(k) != "" && CText(k) == c;
  }

  /** The entries of a dictionary, each converted. */
  function Converted(entries: map<string, PyValue>): (t: map<string, Variant>)
    requires Convertible(Dict(entries))
    ensures t.Keys == entries.Keys
  {
    map k | k in entries :: ToVariant(entries[k])
  }

  lemma DictIs(entries: map<string, PyValue>)
    requires Convertible(Dict(entries))
    ensures KeysDiffer(entries.Keys) && forall k :: k in entries ==> Convertible(entries[k])
    ensures ToVariant(Dict(entries)) == Table(Keyed(Converted(entries)))
  {
  }

  lemma TableIs(t: map<string, Variant>)
    ensures ToPython(Table(t)).Dict? && ToPython(Table(t)).entries.Keys == t.Keys
    ensures forall k :: k in t ==> ToPython(Table(t)).entries[k] == ToPython(t[k])
  {
  }

  lemma DictBack(entries: map<string, PyValue>)
    requires Convertible(Dict(entries))
    ensures ToPython(ToVariant(Dict(entries))) == Dict(entries) <==>
            "" !in entries && forall k :: k in entries ==> '\0' !in k && ToPython(ToVariant(entries[k])) == entries[k]
  {
    hide ToPython, ToVariant, Convertible, CText, Keyed;
    DictIs(entries);
    var t := Converted(entries);
    KeyedHas(t);
    TableIs(Keyed(t));
    var back := ToPython(Table(Keyed(t))).entries;
    assert forall c :: c in back ==> c != "" && '\0' !in c;
    if "" !in entries && forall k :: k in entries ==> '\0' !in k {
      KeyedPlain(t);
      assert forall k :: k in entries ==> back[k] == ToPython(ToVariant(entries[k]));
      assert back == entries <==> forall k :: k in entries ==> back[k] == entries[k];
    }
  }

  // ----- what is shown at every depth -----

  /** A way into a value: by position into a list, by key into a table. */
  datatype Turn = Nth(k: nat) | By(key: string)

  function Below(v: Variant, way: seq<Turn>): Wrappers.Option<Variant> {
    if way == [] then Wrappers.Some(v)
    else
      match (v, way[0])
      case (VarList(items), Nth(k)) => if k < |items| then Below(items[k], way[1..]) else Wrappers.None
      case (Table(entries), By(key)) => if key in entries then Below(entries[key], way[1..]) else Wrappers.None
      case _ => Wrappers.None
  }

  function PyBelow(p: PyValue, way: seq<Turn>): Wrappers.Option<PyValue> {
    if way == [] then Wrappers.Some(p)
    else
      match (p, way[0])
      case (List(items), Nth(k)) => if k < |items| then PyBelow(items[k], way[1..]) else Wrappers.None
      case (Dict(entries), By(key)) => if key in entries then PyBelow(entries[key], way[1..]) else Wrappers.None
      case _ => Wrappers.None
  }

  /** What Python sees of a variant, without what is inside it. */
  predicate Shown(v: Variant, p: PyValue) {
    match v
    case Null => p == None
    case Text(_, text) => p == Str(text)
    case Flag(b) => p == Bool(b)
    case Integer(_, i) => p == Int(i, true)
    case Double(f) => p == Float(f)
    case VarList(items) => p.List? && |p.items| == |items|
    case Table(entries) => p.Dict? && p.entries.Keys == entries.Keys
    case Time(ts) => p == DateTime(1_000_000 * ts.sec + ts.nsec / 1000)
  }

  /** The same ways lead into a variant and into its Python value, and at the end of each stands what is
      shown of the variant there: in particular None exactly for a null, at any depth. */
  lemma {:induction false} ShownEverywhere(v: Variant, way: seq<Turn>)
    ensures PyBelow(ToPython(v), way).Some? == Below(v, way).Some?
    ensures Below(v, way).Some? ==>
              var (u, p) := (Below(v, way).value, PyBelow(ToPython(v), way).value);
              Shown(u, p) && (p == None <==> u == Null)
  {
    if way != [] {
      match (v, way[0])
      case (VarList(items), Nth(k)) =>
        if k < |items| {
          ShownEverywhere(items[k], way[1..]);
        }
      case (Table(entries), By(key)) =>
        if key in entries {
          ShownEverywhere(entries[key], way[1..]);
        }
      case _ =>
    }
  }

  /** What a variant takes from a Python value, without what is inside it. */
  ghost predicate Taken(p: PyValue, v: Variant) {
    match p
    case None => false
    case Str(text) => v == Text(CString, CText(text))
    case Bool(b) => v == Flag(b)
    case Int(i, exact) =>
      var read := if -0x8000_0000_0000_0000 <= i < 0x8000_0000_0000_0000 then i else -1;
      if exact then v == Integer(Int64, read)
      else v.Integer? && v.ikind == Int32 && -0x8000_0000 <= v.i < 0x8000_0000 && (v.i - read) % 0x1_0000_0000 == 0
    case Float(f) => v == Double(f)
    case List(items) => v.VarList? && |v.items| == |items|
    case Dict(entries) =>
      v.Table? && forall c :: c in v.entries <==> c != "" && exists k :: k in entries && CText(k) == c
    case DateTime(t) => v == Time(ToTimestamp(t))
  }

  /** The way with its keys as C strings. */
  function CWay(way: seq<Turn>): seq<Turn> {
    if way == [] then []
    else
      [match way[0]
       case Nth(k) => Nth(k)
       case By(key) => By(CText(key))] + CWay(way[1..])
  }

  predicate NoEmptyKey(way: seq<Turn>) { forall i :: 0 <= i < |way| ==> (way[i].By? ==> CText(way[i].key) != "") }

  lemma EntryTaken(entries: map<string, PyValue>, key: string)
    requires Convertible(Dict(entries)) && key in entries && CText(key) != ""
    ensures Convertible(entries[key]) && ToVariant(Dict(entries)).Table?
    ensures CText(key) in ToVariant(Dict(entries)).entries
    ensures ToVariant(Dict(entries)).entries[CText(key)] == ToVariant(entries[key])
  {
    hide ToVariant, Convertible, CText, Keyed;
    DictIs(entries);
    KeyedAt(Converted(entries), key);
    ConvertedAt(entries, key);
  }

  lemma ConvertedAt(entries: map<string, PyValue>, key: string)
    requires Convertible(Dict(entries)) && key in entries
    ensures Convertible(entries[key]) && Converted(entries)[key] == ToVariant(entries[key])
  {
  }

  lemma DictTaken(entries: map<string, PyValue>)
    requires Convertible(Dict(entries))
    ensures Taken(Dict(entries), ToVariant(Dict(entries)))
  {
    hide ToVariant, Convertible, CText, Keyed;
    DictIs(entries);
    var t := Converted(entries);
    KeyedHas(t);
    forall c | c in Keyed(t) ensures exists k :: k in entries && CText(k) == c {
      var k := KeyedOnly(t, c);
    }
  }

  lemma OneTaken(v: PyValue)
    requires Convertible(v)
    ensures Taken(v, ToVariant(v))
  {
    match v
    case Dict(entries) => DictTaken(entries);
    case Int(i, exact) => SubclassIsCut(i);
    case _ =>
  }

  /** Each way into a Python value leads into its variant, by keys that are C strings, and at its end
      stands what is taken of the value there, at any depth. */
  lemma {:induction false} TakenEverywhere(v: PyValue, way: seq<Turn>)
    requires Convertible(v)
    ensures PyBelow(v, way).Some? && NoEmptyKey(way) ==>
              Below(ToVariant(v), CWay(way)).Some? &&
              Taken(PyBelow(v, way).value, Below(ToVariant(v), CWay(way)).value)
  {
    if PyBelow(v, way).Some? && NoEmptyKey(way) {
      if way == [] {
        OneTaken(v);
      } else {
        var rest := way[1..];
        assert NoEmptyKey(rest) && (way[0].By? ==> CText(way[0].key) != "");
        assert CWay(way)[1..] == CWay(rest);
        hide NoEmptyKey, CText, Taken, Keyed;
        match (v, way[0])
        case (List(items), Nth(k)) =>
          TakenEverywhere(items[k], rest);
        case (Dict(entries), By(key)) =>
          EntryTaken(entries, key);
          TakenEverywhere(entries[key], rest);
      }
    }
  }

  // ----- from a variant and back -----

  predicate InRange(kind: IntKind, i: int) {
    match kind
    case Int8 => -0x80 <= i < 0x80
    case Int16 => -0x8000 <= i < 0x8000
    case Int32 => -TWO_31 <= i < TWO_31
    case Fd => -TWO_31 <= i < TWO_31
    case Int64 => FitsInt64(i)
    case UInt8 => 0 <= i < 0x100
    case UInt16 => 0 <= i < 0x1_0000
    case UInt32 => 0 <= i < TWO_32
    case UInt64 => 0 <= i < TWO_64
  }

  /** A variant as the library keeps it, without null values and with times that Python has. */
  predicate WellFormed(v: Variant) {
    match v
    case Null => false
    case Text(_, text) => '\0' !in text
    case Integer(kind, i) => InRange(kind, i)
    case VarList(items) => forall x :: x in items ==> WellFormed(x)
    case Table(entries) => "" !in entries && forall k :: k in entries ==> '\0' !in k && WellFormed(entries[k])
    case Time(ts) => 0 <= ts.nsec < 1000 * MILLION && IsDateTime(FromTimestamp(ts))
    case _ => true
  }

  /** The same value with one type for texts, one for integers, whole microseconds and no offset. */
  function Canonical(v: Variant): Variant {
    match v
    case Text(_, text) => Text(CString, text)
    case Integer(_, i) => Integer(Int64, i)
    case VarList(items) => VarList(seq(|items|, k requires 0 <= k < |items| => Canonical(items[k])))
    case Table(entries) => Table(map k | k in entries :: Canonical(entries[k]))
    case Time(ts) => Time(Timestamp(ts.sec, ts.nsec / 1000 * 1000, 0))
    case _ => v
  }

  lemma {:induction false} PythonIsConvertible(v: Variant)
    requires WellFormed(v)
    ensures Convertible(ToPython(v))
  {
    match v
    case VarList(items) =>
      var back := ToPython(v).items;
      forall x | x in back ensures Convertible(x) {
        var k :| 0 <= k < |back| && back[k] == x;
        PythonIsConvertible(items[k]);
      }
    case Table(entries) =>
      forall k | k in entries ensures Convertible(ToPython(entries[k])) {
        PythonIsConvertible(entries[k]);
      }
    case _ =>
  }

  /** Going to Python and back puts a variant into its canonical form, exactly when the Python value
      survives: the one integer type that does not is a 64-bit unsigned value of 2^63 or more. */
  lemma {:induction false} BackIsCanonical(v: Variant)
    requires WellFormed(v)
    ensures Convertible(ToPython(v))
    ensures ToVariant(ToPython(v)) == Canonical(v) <==> Survives(ToPython(v))
  {
    PythonIsConvertible(v);
    match v
    case VarList(items) =>
      forall x | x in items
        ensures Convertible(ToPython(x)) && (ToVariant(ToPython(x)) == Canonical(x) <==> Survives(ToPython(x)))
      {
        BackIsCanonical(x);
      }
      CanonicalList(items);
    case Table(entries) =>
      forall k | k in entries
        ensures Convertible(ToPython(entries[k]))
        ensures ToVariant(ToPython(entries[k])) == Canonical(entries[k]) <==> Survives(ToPython(entries[k]))
      {
        BackIsCanonical(entries[k]);
      }
      CanonicalTable(entries);
    case Time(ts) =>
      CanonicalTime(ts);
    case _ =>
  }

  lemma CanonicalTime(ts: Timestamp)
    requires 0 <= ts.nsec < 1000 * MILLION && IsDateTime(FromTimestamp(ts))
    ensures ToTimestamp(FromTimestamp(ts)) == Timestamp(ts.sec, ts.nsec / 1000 * 1000, 0) <==>
            KeepsTime(FromTimestamp(ts))
  {
    var t := FromTimestamp(ts);
    DivMod(t, MILLION, ts.sec, ts.nsec / 1000);
    TimeRoundTrip(t);
    hide WholeSeconds, KeepsTime;
  }

  lemma CanonicalList(items: seq<Variant>)
    requires Convertible(ToPython(VarList(items))) && forall x :: x in items ==> Convertible(ToPython(x))
    ensures ToVariant(ToPython(VarList(items))) == Canonical(VarList(items)) <==>
            forall x :: x in items ==> ToVariant(ToPython(x)) == Canonical(x)
    ensures Survives(ToPython(VarList(items))) <==> forall x :: x in items ==> Survives(ToPython(x))
  {
    var python := ToPython(VarList(items)).items;
    var back, canonical := ToVariant(List(python)).items, Canonical(VarList(items)).items;
    assert |back| == |items| == |canonical| == |python|;
    assert forall k :: 0 <= k < |items| ==>
             python[k] == ToPython(items[k]) && back[k] == ToVariant(python[k]) && canonical[k] == Canonical(items[k]);
    assert forall k :: 0 <= k < |items| ==> items[k] in items && python[k] in python;
  }

  lemma CanonicalTable(entries: map<string, Variant>)
    requires "" !in entries && forall k :: k in entries ==> '\0' !in k
    requires Convertible(ToPython(Table(entries))) && forall k :: k in entries ==> Convertible(ToPython(entries[k]))
    ensures ToVariant(ToPython(Table(entries))) == Canonical(Table(entries)) <==>
            forall k :: k in entries ==> ToVariant(ToPython(entries[k])) == Canonical(entries[k])
    ensures Survives(ToPython(Table(entries))) <==> forall k :: k in entries ==> Survives(ToPython(entries[k]))
  {
    hide *;
    TableToPython(entries);
    var python := ToPython(Table(entries)).entries;
    DictToVariant(python);
    SurvivingDict(python);
    var back, canonical := ToVariant(Dict(python)).entries, Canonical(Table(entries)).entries;
    assert forall k :: k in entries ==>
                         back[k] == ToVariant(ToPython(entries[k])) && canonical[k] == Canonical(entries[k]);
    assert back == canonical <==> forall k :: k in entries ==> back[k] == canonical[k];
  }

  lemma TableToPython(entries: map<string, Variant>)
    ensures ToPython(Table(entries)).Dict? && ToPython(Table(entries)).entries.Keys == entries.Keys
    ensures forall k :: k in entries ==> ToPython(Table(entries)).entries[k] == ToPython(entries[k])
    ensures Canonical(Table(entries)).Table? && Canonical(Table(entries)).entries.Keys == entries.Keys
    ensures forall k :: k in entries ==> Canonical(Table(entries)).entries[k] == Canonical(entries[k])
  {
  }

  lemma DictToVariant(entries: map<string, PyValue>)
    requires Convertible(Dict(entries)) && "" !in entries && forall k :: k in entries ==> '\0' !in k
    ensures ToVariant(Dict(entries)).Table? && ToVariant(Dict(entries)).entries.Keys == entries.Keys
    ensures forall k :: k in entries ==>
                          Convertible(entries[k]) && ToVariant(Dict(entries)).entries[k] == ToVariant(entries[k])
  {
    hide ToVariant, Convertible, CText, Keyed;
    DictIs(entries);
    KeyedPlain(Converted(entries));
  }

  lemma SurvivingDict(entries: map<string, PyValue>)
    ensures Survives(Dict(entries)) <==>
            "" !in entries && forall k :: k in entries ==> '\0' !in k && Survives(entries[k])
  {
  }

  /** The normal form keeps the value, and taking it again changes nothing. */
  lemma NormalForm(v: Variant)
    requires WellFormed(v) && Survives(ToPython(v))
    ensures Convertible(ToPython(v))
    ensures var normal := ToVariant(ToPython(v));
            ToPython(normal) == ToPython(v) && normal == Canonical(v) && ToVariant(ToPython(normal)) == normal
  {
    BackIsCanonical(v);
    RoundTrip(ToPython(v));
  }

  // ----- the conversions fill a variant in place -----

  class Variable {
    var value: Variant

    constructor ()
      ensures value == Null
    {
      value := Null;
    }
  }

  method Python2Variant(v: PyValue, out: Variable)
    requires Convertible(v)
    modifies out
    ensures out.value == ToVariant(v)
    decreases v, 1
  {
    match v
    case Str(text) => out.value := Text(CString, CText(text));
    case Bool(b) => out.value := Flag(b);
    case Int(i, exact) =>
      if !exact {
        out.value := Integer(Int32, AsInt32(AsLong(i)));
      } else {
        out.value := Integer(Int64, AsLong(i));
      }
    case Float(f) => out.value := Double(f);
    case Dict(entries) => PythonDict2Variant(entries, out);
    case List(items) => PythonList2Variant(items, out);
    case DateTime(t) => out.value := Time(ToTimestamp(t));
  }

  /** The entries under some of the keys. */
  function Under(t: map<string, Variant>, keys: set<string>): map<string, Variant> {
    map k | k in t && k in keys :: t[k]
  }

  lemma UnderMore(t: map<string, Variant>, keys: set<string>, key: string)
    requires KeysDiffer(t.Keys) && key in t && key !in keys
    ensures Under(t, {}) == map[] && Under(t, t.Keys) == t && key !in Under(t, keys)
    ensures KeysDiffer(Under(t, keys).Keys) && KeysDiffer(Under(t, keys + {key}).Keys)
    ensures Under(t, keys + {key}) == Under(t, keys)[key := t[key]]
    ensures KeysDiffer(Under(t, keys).Keys + {key})
  {
    hide CText;
  }

  lemma NoneKeyed(t: map<string, Variant>)
    requires KeysDiffer(t.Keys)
    ensures Under(t, {}) == map[] && Under(t, t.Keys) == t
    ensures KeysDiffer(Under(t, {}).Keys) && Keyed(Under(t, {})) == map[]
  {
    hide CText;
  }

  /** The entries are converted one by one into the same temporary. */
  method PythonDict2Variant(entries: map<string, PyValue>, out: Variable)
    requires Convertible(Dict(entries))
    modifies out
    ensures out.value == ToVariant(Dict(entries))
    decreases Dict(entries), 0
  {
    hide ToVariant, Convertible, CText, Keyed, Under, KeysDiffer;
    DictIs(entries);
    ghost var t := Converted(entries);
    NoneKeyed(t);
    var converted := new Variable();
    var table: map<string, Variant> := map[];
    out.value := Table(table);
    var left := entries.Keys;
    ghost var done: set<string> := {};
    while left != {}
      invariant left <= entries.Keys && done == entries.Keys - left && out.value == Table(table)
      invariant KeysDiffer(Under(t, done).Keys) && table == Keyed(Under(t, done))
    {
      var key :| key in left;
      UnderMore(t, done, key);
      Python2Variant(entries[key], converted);
      KeyedMore(Under(t, done), key, converted.value);
      if CText(key) != "" {
        table := table[CText(key) := converted.value];
        out.value := Table(table);
      }
      left, done := left - {key}, done + {key};
    }
    assert done == t.Keys;
  }

  method PythonList2Variant(items: seq<PyValue>, out: Variable)
    requires Convertible(List(items))
    modifies out
    ensures out.value == ToVariant(List(items))
    decreases List(items), 0
  {
    var list: seq<Variant> := [];
    out.value := VarList(list);
    var i := 0;
    while i < |items|
      invariant 0 <= i <= |items| && out.value == VarList(list)
      invariant |list| == i && forall k :: 0 <= k < i ==> list[k] == ToVariant(items[k])
    {
      var converted := new Variable();
      Python2Variant(items[i], converted);
      list := list + [converted.value];
      out.value := VarList(list);
      i := i + 1;
    }
  }

  method Variant2Python(v: Variant) returns (r: PyValue)
    ensures r == ToPython(v)
    decreases v, 1
  {
    match v
    case Null => r := None;
    case Text(_, text) => r := Str(text);
    case Integer(_, i) => r := Int(i, true);
    case Double(f) => r := Float(f);
    case Flag(b) => r := Bool(b);
    case VarList(items) => r := Variant2PythonList(items);
    case Table(entries) => r := Variant2PythonDict(entries);
    case Time(ts) => r := DateTime(FromTimestamp(ts));
  }

  method Variant2PythonList(items: seq<Variant>) returns (r: PyValue)
    ensures r == ToPython(VarList(items))
    decreases VarList(items), 0
  {
    var list: seq<PyValue> := [];
    var i := 0;
    while i < |items|
      invariant 0 <= i <= |items|
      invariant |list| == i && forall k :: 0 <= k < i ==> list[k] == ToPython(items[k])
    {
      var element := Variant2Python(items[i]);
      list := list + [element];
      i := i + 1;
    }
    r := List(list);
  }

  method Variant2PythonDict(entries: map<string, Variant>) returns (r: PyValue)
    ensures r == ToPython(Table(entries))
    decreases Table(entries), 0
  {
    var dict: map<string, PyValue> := map[];
    var left := entries.Keys;
    while left != {}
      invariant left <= entries.Keys
      invariant dict == map k | k in entries && k !in left :: ToPython(entries[k])
    {
      var key :| key in left;
      var value := Variant2Python(entries[key]);
      dict := dict[key := value];
      left := left - {key};
    }
    r := Dict(dict);
  }
}
