/**
 The query context of a table request, in the two dialects osquery has spoken: operators as decimal
 strings and an empty list as "", or operators as numbers and every list as an array.
 */
module QueryContext {
  import opened Bytes

  datatype Json =
    | Null
    | Bool(b: bool)
    | Int(n: int)
    | Float(text: string)
    | Str(s: string)
    | Arr(items: seq<Json>)
    | Obj(fields: map<string, Json>)

  function Get(j: Json, key: string): Json {
    if j.Obj? && key in j.fields then j.fields[key] else Null
  }

  // ----- decimal text

  function Digits(s: string): (r: Option<nat>) {
    if s == "" then Some(0)
    else
      var last := s[|s| - 1];
      if !('0' <= last <= '9') then None else
        match Digits(s[..|s| - 1])
        case None => None
        case Some(n) => Some(10 * n + (last as int - '0' as int))
  }

  const I64_MAX := 0x7fff_ffff_ffff_ffff

  /** `str::parse::<i64>`: an optional sign, then digits, in range. */
  function ParseInt(s: string): Option<int> {
    var signed := s != "" && (s[0] == '-' || s[0] == '+');
    var body := if signed then s[1..] else s;
    if body == "" then None else
      match Digits(body)
      case None => None
      case Some(n) =>
        var value := if signed && s[0] == '-' then 0 - (n as int) else n as int;
        if -I64_MAX - 1 <= value <= I64_MAX then Some(value) else None
  }

  function Show(n: nat): (s: string)
    ensures s != "" && '0' <= s[0] <= '9'
  {
    var digit := [('0' as int + n % 10) as char];
    if n < 10 then digit else Show(n / 10) + digit
  }

  lemma {:induction false} ShowDigits(n: nat)
    ensures Digits(Show(n)) == Some(n)
  {
    var s := Show(n);
    if n < 10 {
      assert s[..|s| - 1] == "";
    } else {
      ShowDigits(n / 10);
      assert s[..|s| - 1] == Show(n / 10);
    }
  }

  lemma ParseShown(n: nat)
    requires n <= I64_MAX
    ensures ParseInt(Show(n)) == Some(n)
  {
    hide Digits;
    ShowDigits(n);
  }

  // ----- what a request's context means

  datatype Operator =
    | Unique | Equals | In | GreaterThan | LessThanOrEquals | LessThan | GreaterThanOrEquals
    | Match | Like | Glob | Regexp | NotEquals | IsNot | IsNotNull | IsNull | Is | Limit | Offset

  /** osquery's numbers for them. */
  function Code(op: Operator): nat {
    match op
    case Unique => 1
    case Equals => 2
    case In => 3
    case GreaterThan => 4
    case LessThanOrEquals => 8
    case LessThan => 16
    case GreaterThanOrEquals => 32
    case Match => 64
    case Like => 65
    case Glob => 66
    case Regexp => 67
    case NotEquals => 68
    case IsNot => 69
    case IsNotNull => 70
    case IsNull => 71
    case Is => 72
    case Limit => 73
    case Offset => 74
  }

  /** `Operator::try_from` */
  function OperatorOf(code: int): Option<Operator> {
    match code
    case 2 => Some(Equals)
    case 4 => Some(GreaterThan)
    case 8 => Some(LessThanOrEquals)
    case 16 => Some(LessThan)
    case 32 => Some(GreaterThanOrEquals)
    case 64 => Some(Match)
    case 65 => Some(Like)
    case 66 => Some(Glob)
    case 67 => Some(Regexp)
    case 1 => Some(Unique)
    case 3 => Some(In)
    case 68 => Some(NotEquals)
    case 69 => Some(IsNot)
    case 70 => Some(IsNotNull)
    case 71 => Some(IsNull)
    case 72 => Some(Is)
    case 73 => Some(Limit)
    case 74 => Some(Offset)
    case _ => None
  }

  lemma OperatorCodes(op: Operator, code: int)
    ensures OperatorOf(code) == Some(op) <==> code == Code(op)
  {
  }

  datatype Constraint = Constraint(op: Operator, expr: string)

  datatype Affinity = Unknown | Text | Integer | BigInt | UnsignedBigInt | Double | Blob

  datatype ConstraintList = ConstraintList(affinity: Affinity, constraints: seq<Constraint>)

  type Context = map<string, ConstraintList>

  function DecodeOperator(j: Json): Option<Operator> {
    match j
    case Str(s) =>
      if s == "" then None else
        (match ParseInt(s)
         case Some(code) => OperatorOf(code)
         case None => None)
    case Int(n) => OperatorOf(n)
    case _ => None
  }

  /** A constraint is an object with both fields, or the two values as an array. */
  function DecodeConstraint(j: Json): Option<Constraint> {
    var (op, expr) := if j.Arr? && |j.items| == 2 then (j.items[0], j.items[1]) else (Get(j, "op"), Get(j, "expr"));
    match (DecodeOperator(op), expr)
    case (Some(operator), Str(s)) => Some(Constraint(operator, s))
    case _ => None
  }

  /** Constraints that cannot be read are skipped. */
  function DecodeItems(items: seq<Json>): seq<Constraint> {
    if items == [] then [] else
      match DecodeConstraint(items[0])
      case Some(c) => [c] + DecodeItems(items[1..])
      case None => DecodeItems(items[1..])
  }

  function DecodeList(j: Json): Option<seq<Constraint>> {
    match j
    case Str(s) => if s == "" then Some([]) else None
    case Arr(items) => Some(DecodeItems(items))
    case _ => None
  }

  function ShowAffinity(a: Affinity): string {
    match a
    case Unknown => "UNKNOWN"
    case Text => "TEXT"
    case Integer => "INTEGER"
    case BigInt => "BIGINT"
    case UnsignedBigInt => "UNSIGNED BIGINT"
    case Double => "DOUBLE"
    case Blob => "BLOB"
  }

  function AffinityNamed(s: string): Option<Affinity> {
    if s == "UNKNOWN" then Some(Unknown)
    else if s == "TEXT" then Some(Text)
    else if s == "INTEGER" then Some(Integer)
    else if s == "BIGINT" then Some(BigInt)
    else if s == "UNSIGNED BIGINT" then Some(UnsignedBigInt)
    else if s == "DOUBLE" then Some(Double)
    else if s == "BLOB" then Some(Blob)
    else None
  }

  /** A name, or an object with that name as its only key and null under it. */
  function DecodeAffinity(j: Json): Option<Affinity> {
    match j
    case Str(s) => AffinityNamed(s)
    case Obj(fields) =>
      if |fields| != 1 then None else
        SingleKey(fields);
        var key :| key in fields;
        if fields[key] == Null then AffinityNamed(key) else None
    case _ => None
  }

  lemma SingleKey(fields: map<string, Json>)
    requires |fields| == 1
    ensures exists k :: k in fields
    ensures forall j, k :: j in fields && k in fields ==> j == k
  {
    assert |fields.Keys| == 1;
    var k :| k in fields.Keys;
    assert fields.Keys == {k} by {
      assert |fields.Keys - {k}| == 0;
    }
  }

  function DecodeColumn(j: Json): Option<ConstraintList> {
    match (DecodeAffinity(Get(j, "affinity")),
           if j.Obj? && "list" in j.fields then DecodeList(j.fields["list"]) else Some([]))
    case (Some(a), Some(cs)) => Some(ConstraintList(a, cs))
    case _ => None
  }

  /** One column of the context, on top of those before it. */
  function Insert(so: Option<Context>, j: Json): Option<Context> {
    match (so, Get(j, "name"), DecodeColumn(j))
    case (Some(m), Str(name), Some(list)) => Some(m[name := list])
    case _ => None
  }

  function DecodeColumns(columns: seq<Json>): Option<Context>
    decreases |columns|
  {
    if columns == [] then Some(map[]) else Insert(DecodeColumns(columns[..|columns| - 1]), columns[|columns| - 1])
  }

  function Decode(j: Json): Option<Context> {
    match Get(j, "constraints")
    case Null => Some(map[])
    case Arr(columns) => DecodeColumns(columns)
    case _ => None
  }

  /** `QueryContext::deserialize`: fills the map column by column, and stops at the first bad one. */
  method Deserialize(j: Json) returns (r: Option<Context>)
    ensures r == Decode(j)
  {
    var constraints: Context := map[];
    match Get(j, "constraints")
    case Null => return Some(constraints);
    case Arr(columns) =>
      hide DecodeColumn;
      var i := 0;
      while i < |columns|
        invariant 0 <= i <= |columns|
        invariant DecodeColumns(columns[..i]) == Some(constraints)
      {
        assert columns[..i + 1][..i] == columns[..i];
        match Get(columns[i], "name")
        case Str(name) =>
          match DecodeColumn(columns[i]) {
            case None =>
              Rejected(columns, i);
              return None;
            case Some(list) => constraints := constraints[name := list];
          }
          i := i + 1;
        case _ =>
          Rejected(columns, i);
          return None;
      }
      assert columns[..i] == columns;
      return Some(constraints);
    case _ => return None;
  }

  lemma {:induction false} Rejected(columns: seq<Json>, i: nat)
    requires i < |columns| && (!Get(columns[i], "name").Str? || DecodeColumn(columns[i]).None?)
    ensures DecodeColumns(columns) == None
    decreases |columns|
  {
    hide DecodeColumn;
    if i < |columns| - 1 {
      Rejected(columns[..|columns| - 1], i);
    }
  }

  // ----- the two dialects

  datatype Dialect = Stringy | Typed

  datatype Column = Column(name: string, list: ConstraintList)

  function EncodeConstraint(d: Dialect, c: Constraint): Json {
    Obj(map["op" := if d.Stringy? then Str(Show(Code(c.op))) else Int(Code(c.op)), "expr" := Str(c.expr)])
  }

  function EncodeItems(d: Dialect, cs: seq<Constraint>): seq<Json> {
    if cs == [] then [] else [EncodeConstraint(d, cs[0])] + EncodeItems(d, cs[1..])
  }

  function EncodeColumn(d: Dialect, c: Column): Json {
    Obj(map["name" := Str(c.name), "affinity" := Str(ShowAffinity(c.list.affinity)),
            "list" := if d.Stringy? && c.list.constraints == [] then Str("")
                else Arr(EncodeItems(d, c.list.constraints))])
  }

  function EncodeColumns(d: Dialect, columns: seq<Column>): (r: seq<Json>)
    ensures |r| == |columns|
    ensures forall i | 0 <= i < |r| :: r[i] == EncodeColumn(d, columns[i])
  {
    if columns == [] then [] else [EncodeColumn(d, columns[0])] + EncodeColumns(d, columns[1..])
  }

  function Encode(d: Dialect, columns: seq<Column>): Json {
    Obj(map["constraints" := Arr(EncodeColumns(d, columns))])
  }

  /** The context the columns stand for: for a repeated name, the last. */
  function Meaning(columns: seq<Column>): Context
    decreases |columns|
  {
    if columns == [] then map[] else
      var c := columns[|columns| - 1];
      Meaning(columns[..|columns| - 1])[c.name := c.list]
  }

  lemma ConstraintRead(d: Dialect, c: Constraint)
    ensures DecodeConstraint(EncodeConstraint(d, c)) == Some(c)
  {
    hide ParseInt, Show;
    ParseShown(Code(c.op));
    OperatorCodes(c.op, Code(c.op));
    hide Code, OperatorOf;
  }

  lemma {:induction false} ItemsRead(d: Dialect, cs: seq<Constraint>)
    ensures DecodeItems(EncodeItems(d, cs)) == cs
  {
    hide DecodeConstraint, EncodeConstraint;
    if cs != [] {
      ConstraintRead(d, cs[0]);
      ItemsRead(d, cs[1..]);
      assert EncodeItems(d, cs)[1..] == EncodeItems(d, cs[1..]);
      assert cs == [cs[0]] + cs[1..];
    }
  }

  lemma AffinityRead(a: Affinity)
    ensures DecodeAffinity(Str(ShowAffinity(a))) == Some(a)
  {
    assert "UNKNOWN"[1] == 'N' && "INTEGER"[0] == 'I' && |"TEXT"| == 4 && "TEXT"[0] == 'T' && "BLOB"[0] == 'B';
    assert |"UNKNOWN"| == 7 && |"INTEGER"| == 7 && |"BIGINT"| == 6 && |"DOUBLE"| == 6;
    assert |"UNSIGNED BIGINT"| == 15 && |"BLOB"| == 4;
    assert "UNKNOWN"[0] == 'U' && "BIGINT"[0] == 'B' && "DOUBLE"[0] == 'D';
  }

  lemma ColumnRead(d: Dialect, c: Column)
    ensures Get(EncodeColumn(d, c), "name") == Str(c.name) && DecodeColumn(EncodeColumn(d, c)) == Some(c.list)
  {
    AffinityRead(c.list.affinity);
    ItemsRead(d, c.list.constraints);
    hide DecodeAffinity, ShowAffinity, DecodeItems, EncodeItems;
  }

  lemma InsertRead(d: Dialect, m: Context, c: Column)
    ensures Insert(Some(m), EncodeColumn(d, c)) == Some(m[c.name := c.list])
  {
    ColumnRead(d, c);
    hide EncodeColumn, DecodeColumn, Get;
  }

  lemma {:induction false} ColumnsRead(d: Dialect, columns: seq<Column>)
    ensures DecodeColumns(EncodeColumns(d, columns)) == Some(Meaning(columns))
    decreases |columns|
  {
    hide EncodeColumn, Insert, EncodeColumns;
    var encoded := EncodeColumns(d, columns);
    if columns == [] {
      assert encoded == [];
    } else {
      var front, last := columns[..|columns| - 1], columns[|columns| - 1];
      ColumnsRead(d, front);
      InsertRead(d, Meaning(front), last);
      FrontEncoded(d, columns);
      assert encoded[|encoded| - 1] == EncodeColumn(d, last);
    }
  }

  lemma FrontEncoded(d: Dialect, columns: seq<Column>)
    requires columns != []
    ensures EncodeColumns(d, columns)[..|columns| - 1] == EncodeColumns(d, columns[..|columns| - 1])
  {
    hide EncodeColumn, EncodeColumns;
  }

  /** Either dialect carries any context, repeated columns included, without loss. */
  lemma ContextRead(d: Dialect, columns: seq<Column>)
    ensures Decode(Encode(d, columns)) == Some(Meaning(columns))
  {
    hide DecodeColumns, EncodeColumns, Meaning;
    ColumnsRead(d, columns);
  }

  lemma {:induction false} ItemsAppend(a: seq<Json>, b: seq<Json>)
    ensures DecodeItems(a + b) == DecodeItems(a) + DecodeItems(b)
    decreases |a|
  {
    hide DecodeConstraint;
    if a == [] {
      assert a + b == b;
    } else {
      assert (a + b)[0] == a[0] && (a + b)[1..] == a[1..] + b;
      ItemsAppend(a[1..], b);
    }
  }

  /** What an unreadable constraint does to the others: nothing, wherever it stands. */
  lemma UnreadableSkipped(before: seq<Json>, junk: Json, after: seq<Json>)
    requires DecodeConstraint(junk) == None
    ensures DecodeItems(before + [junk] + after) == DecodeItems(before) + DecodeItems(after)
    ensures DecodeItems(before + after) == DecodeItems(before) + DecodeItems(after)
  {
    ItemsAppend(before + [junk], after);
    ItemsAppend(before, [junk]);
    ItemsAppend(before, after);
    assert DecodeItems([junk]) == [] by { assert [junk][1..] == []; }
  }

  /** Decoding fails exactly when the constraints are no list, or a column has no name or cannot be read. */
  lemma DecodeFails(j: Json)
    ensures Decode(j) == None <==>
              var cs := Get(j, "constraints");
              && cs != Null
              && (cs.Arr? ==> exists i | 0 <= i < |cs.items| ::
                  !Get(cs.items[i], "name").Str? || DecodeColumn(cs.items[i]).None?)
  {
    var cs := Get(j, "constraints");
    if cs.Arr? {
      AllRead(cs.items);
      hide DecodeColumn;
      if i :| 0 <= i < |cs.items| && (!Get(cs.items[i], "name").Str? || DecodeColumn(cs.items[i]).None?) {
        Rejected(cs.items, i);
      }
    }
  }

  lemma {:induction false} AllRead(columns: seq<Json>)
    ensures (forall i | 0 <= i < |columns| :: Get(columns[i], "name").Str? && DecodeColumn(columns[i]).Some?)
        ==> DecodeColumns(columns).Some?
    decreases |columns|
  {
    hide DecodeColumn;
    if columns != []
        && forall i | 0 <= i < |columns| :: Get(columns[i], "name").Str? && DecodeColumn(columns[i]).Some? {
      AllRead(columns[..|columns| - 1]);
    }
  }

  /**
   The other spellings: a constraint may be a pair, an affinity an object with its name for a key, and a
   column may leave out its list. A constraint in any other shape is unreadable.
   */
  lemma OtherSpellings(op: Json, expr: Json, name: string, a: Affinity, column: string)
    ensures DecodeConstraint(Arr([op, expr])) == DecodeConstraint(Obj(map["op" := op, "expr" := expr]))
    ensures DecodeAffinity(Obj(map[name := Null])) == DecodeAffinity(Str(name))
    ensures DecodeColumn(Obj(map["name" := Str(column), "affinity" := Obj(map[ShowAffinity(a) := Null])]))
         == Some(ConstraintList(a, []))
  {
    NameAlone(name);
    NameAlone(ShowAffinity(a));
    AffinityRead(a);
    hide ShowAffinity, DecodeAffinity;
  }

  lemma NameAlone(name: string)
    ensures DecodeAffinity(Obj(map[name := Null])) == AffinityNamed(name) == DecodeAffinity(Str(name))
  {
    var fields: map<string, Json> := map[name := Null];
    assert fields.Keys == {name};
    SingleKey(fields);
    hide AffinityNamed;
  }

  /** Decimal text in an i64's range is read with its sign, and anything else is not a number. */
  lemma SignsRead(n: nat)
    ensures ParseInt("+" + Show(n)) == ParseInt(Show(n)) == if n <= I64_MAX then Some(n) else None
    ensures ParseInt("-" + Show(n)) == if n <= 0x8000_0000_0000_0000 then Some(0 - n) else None
    ensures ParseInt("") == None && ParseInt("+") == None && ParseInt("-") == None
  {
    ShowDigits(n);
    hide Show, Digits;
    assert ("+" + Show(n))[1..] == Show(n) && ("-" + Show(n))[1..] == Show(n);
  }

  lemma {:induction false} NotDigits(s: string, i: nat)
    requires i < |s| && !('0' <= s[i] <= '9')
    ensures Digits(s) == None
    decreases |s|
  {
    if i < |s| - 1 {
      NotDigits(s[..|s| - 1], i);
    }
  }

  /** An operator is one of its numbers, or text for one with or without a sign; no text is none. */
  lemma OperatorTexts(n: nat, j: Json)
    ensures DecodeOperator(Int(n)) == OperatorOf(n)
    ensures n <= I64_MAX ==> DecodeOperator(Str(Show(n))) == DecodeOperator(Str("+" + Show(n))) == OperatorOf(n)
    ensures n > 0 ==> DecodeOperator(Str("-" + Show(n))) == None && DecodeOperator(Int(0 - n)) == None
    ensures DecodeOperator(Str("")) == None
    ensures !j.Int? && !j.Str? ==> DecodeOperator(j) == None
  {
    SignsRead(n);
    hide ParseInt, Show;
    assert forall code: int | code <= 0 :: OperatorOf(code) == None;
    hide OperatorOf;
  }

  /** A column is unreadable exactly when its affinity is, or its list is there and neither "" nor an array. */
  lemma ColumnFails(j: Json)
    ensures DecodeColumn(j) == None <==>
              || DecodeAffinity(Get(j, "affinity")) == None
              || (j.Obj? && "list" in j.fields && j.fields["list"] != Str("") && !j.fields["list"].Arr?)
  {
    hide DecodeAffinity;
  }
}
