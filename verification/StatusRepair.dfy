/**
 The logger's repair of osquery's status logs. osquery sends `{"":o1,"":o2,...}` for a list of
 objects; three text edits turn it into `[o1,o2,...]`. JSON text follows RFC 8259, sections 4
 (objects), 5 (arrays) and 7 (strings), written without insignificant whitespace.
 */
module StatusRepair {
  import opened Bytes

  // ----- JSON text

  /** One character of a string's text between its quotes, or an escape: a backslash and what it escapes. */
  datatype Raw = Plain(c: char) | Escape(c: char)
  type Unit = u: Raw | u.Plain? ==> u.c != '"' && u.c != '\\' witness Plain('a')
  type Body = seq<Unit>

  datatype Pair = Pair(key: Body, val: Body)
  type Object = seq<Pair>

  function UnitText(u: Unit): string {
    if u.Plain? then [u.c] else ['\\', u.c]
  }

  function BodyText(b: Body): string {
    if b == [] then "" else UnitText(b[0]) + BodyText(b[1..])
  }

  function Quoted(b: Body): string {
    "\"" + (BodyText(b) + "\"")
  }

  function PairText(p: Pair): string {
    "\"" + (BodyText(p.key) + "\":") + Quoted(p.val)
  }

  function Join(parts: seq<string>): string {
    if parts == [] then "" else if |parts| == 1 then parts[0] else parts[0] + ("," + Join(parts[1..]))
  }

  function PairTexts(o: Object): seq<string> {
    if o == [] then [] else [PairText(o[0])] + PairTexts(o[1..])
  }

  function ObjectText(o: Object): string {
    "{" + (Join(PairTexts(o)) + "}")
  }

  function ObjectTexts(os: seq<Object>): seq<string> {
    if os == [] then [] else [ObjectText(os[0])] + ObjectTexts(os[1..])
  }

  function ArrayText(os: seq<Object>): string {
    "[" + (Join(ObjectTexts(os)) + "]")
  }

  function Unnamed(parts: seq<string>): seq<string> {
    if parts == [] then [] else ["\"\":" + parts[0]] + Unnamed(parts[1..])
  }

  /** What osquery sends: the objects as members of one object, all under the empty name. */
  function StatusText(os: seq<Object>): string {
    "{" + (Join(Unnamed(ObjectTexts(os))) + "}")
  }

  // ----- the three edits

  /** `replace("\"\":", "")`: leftmost non-overlapping occurrences removed. */
  function Strip(s: string): (r: string)
    ensures |r| <= |s|
  {
    if |s| < 3 then s
    else if Matches(s) then Strip(s[3..])
    else [s[0]] + Strip(s[1..])
  }

  /** `replacen('{', "[", 1)` */
  function OpenFirst(s: string): string {
    if s == "" then "" else if s[0] == '{' then "[" + s[1..] else [s[0]] + OpenFirst(s[1..])
  }

  /** Everything from the last `}` on becomes `]`, if there is one. */
  function CloseLast(s: string): string {
    if s == "" then "" else if s[|s| - 1] == '}' then s[..|s| - 1] + "]"
    else if '}' in s then CloseLast(s[..|s| - 1]) else s
  }

  function Repair(data: string): string {
    CloseLast(OpenFirst(Strip(data)))
  }

  // ----- stripping one piece at a time

  /** No occurrence of the pattern straddles this boundary. */
  predicate Clean(a: string, b: string) {
    a == "" || b == "" || a[|a| - 1] != '"' || (b[0] != '"' && b[0] != ':')
  }

  predicate Matches(s: string) {
    |s| >= 3 && s[0] == '"' && s[1] == '"' && s[2] == ':'
  }

  lemma StripShort(a: string)
    requires a != "" && !Matches(a)
    ensures Strip(a) == [a[0]] + Strip(a[1..])
  {
  }

  lemma StripMatch(a: string, b: string)
    requires Matches(a)
    ensures Strip(a + b) == Strip(a[3..] + b)
  {
    assert (a + b)[3..] == a[3..] + b;
  }

  lemma StripNext(a: string, b: string)
    requires a != "" && !Matches(a) && Clean(a, b)
    ensures Strip(a + b) == [a[0]] + Strip(a[1..] + b)
  {
    hide Strip;
    var s := a + b;
    assert s[1..] == a[1..] + b;
    assert !Matches(s);
    StripShort(s);
  }

  lemma {:induction false} StripCut(a: string, b: string)
    requires Clean(a, b)
    ensures Strip(a + b) == Strip(a) + Strip(b)
    decreases |a|, 1
  {
    hide Strip, Matches;
    if a == "" {
      assert a + b == b;
      StripNothing();
    } else if Matches(a) {
      StripCutMatch(a, b);
    } else {
      StripNext(a, b);
      StripShort(a);
      StripCut(a[1..], b);
      assert [a[0]] + (Strip(a[1..]) + Strip(b)) == [a[0]] + Strip(a[1..]) + Strip(b);
    }
  }

  lemma {:induction false} StripCutMatch(a: string, b: string)
    requires Clean(a, b) && Matches(a)
    ensures Strip(a + b) == Strip(a) + Strip(b)
    decreases |a|, 0
  {
    hide Strip;
    StripMatch(a, b);
    StripMatch(a, "");
    assert a + "" == a && a[3..] + "" == a[3..];
    StripCut(a[3..], b);
  }

  lemma StripNothing()
    ensures Strip("") == ""
  {
  }

  /** A key is safe to send when it is not empty and its text does not end in an escaped quote. */
  predicate GoodKey(k: Body) {
    k != [] && k[|k| - 1] != Escape('"')
  }

  lemma StripOne(c: char, rest: string)
    requires !(c == '"' && |rest| >= 2 && rest[0] == '"' && rest[1] == ':')
    ensures Strip([c] + rest) == [c] + Strip(rest)
  {
    assert ([c] + rest)[1..] == rest;
    hide Strip;
    StripShort([c] + rest);
  }

  /** A unit is untouched unless it is an escaped quote completing the pattern with what follows. */
  lemma StripFirstUnit(u: Unit, rest: string)
    requires u == Escape('"') ==> !(|rest| >= 2 && rest[0] == '"' && rest[1] == ':')
    ensures Strip(UnitText(u) + rest) == UnitText(u) + Strip(rest)
  {
    hide Strip;
    StripOne(u.c, rest);
    if u.Escape? {
      var escaped := [u.c] + rest;
      StripOne('\\', escaped);
      EscapeText(u.c, rest);
      EscapeText(u.c, Strip(rest));
    }
  }

  lemma EscapeText(c: char, rest: string)
    ensures UnitText(Escape(c)) + rest == ['\\'] + ([c] + rest)
  {
  }

  /** From inside a key to its colon: only a final escaped quote completes the pattern. */
  lemma {:induction false} StripKeyRest(b: Body)
    ensures Strip(BodyText(b) + "\":")
         == if b != [] && b[|b| - 1] == Escape('"') then BodyText(b[..|b| - 1]) + "\\" else BodyText(b) + "\":"
  {
    if b == [Escape('"')] {
      LastQuote();
      assert BodyText(b) == UnitText(b[0]) + "" == "\\\"";
    } else if b != [] {
      hide Strip;
      var rest := BodyText(b[1..]) + "\":";
      assert BodyText(b) + "\":" == UnitText(b[0]) + rest;
      if |b| > 1 { FirstChar(b[1..], "\":"); }
      StripFirstUnit(b[0], rest);
      StripKeyRest(b[1..]);
      LastUnit(b);
      if |b| > 1 && b[|b| - 1] == Escape('"') {
        var front := BodyText(b[1..][..|b| - 2]);
        assert UnitText(b[0]) + (front + "\\") == (UnitText(b[0]) + front) + "\\";
      } else {
        assert UnitText(b[0]) + (BodyText(b[1..]) + "\":") == BodyText(b) + "\":";
      }
    }
  }

  lemma LastQuote()
    ensures Strip("\\\"\":") == "\\"
  {
    var s := "\\\"\":";
    assert s[1..] == "\"\":";
    assert s[1..][3..] == "";
  }

  lemma FirstChar(b: Body, end: string)
    requires b != []
    ensures BodyText(b) + end != "" && (BodyText(b) + end)[0] != '"'
  {
    assert BodyText(b) == UnitText(b[0]) + BodyText(b[1..]);
  }

  lemma LastUnit(b: Body)
    requires b != []
    ensures |b| > 1
        ==> b[1..][|b| - 2] == b[|b| - 1] && BodyText(b[..|b| - 1]) == UnitText(b[0]) + BodyText(b[1..][..|b| - 2])
    ensures |b| == 1 ==> b[..|b| - 1] == []
  {
    if |b| > 1 {
      assert b[..|b| - 1][1..] == b[1..][..|b| - 2];
    }
  }

  lemma {:induction false} StripValueRest(b: Body)
    ensures Strip(BodyText(b) + "\"") == BodyText(b) + "\""
  {
    if b != [] {
      hide Strip;
      var rest := BodyText(b[1..]) + "\"";
      assert BodyText(b) + "\"" == UnitText(b[0]) + rest;
      if |b| > 1 { FirstChar(b[1..], "\""); } else { assert rest == "\""; }
      StripFirstUnit(b[0], rest);
      StripValueRest(b[1..]);
    } else {
      assert |BodyText(b) + "\""| == 1;
    }
  }

  lemma StripQuoted(b: Body)
    ensures Strip(Quoted(b)) == Quoted(b)
  {
    StripValueRest(b);
    if b != [] {
      FirstChar(b, "\"");
      StripOne('"', BodyText(b) + "\"");
    } else {
      assert |Quoted(b)| == 2;
    }
  }

  /** A member survives stripping exactly when its key is good; otherwise it loses three characters. */
  lemma StripPair(p: Pair)
    ensures GoodKey(p.key) ==> Strip(PairText(p)) == PairText(p)
    ensures !GoodKey(p.key) ==> |Strip(PairText(p))| == |PairText(p)| - 3
  {
    var head := "\"" + (BodyText(p.key) + "\":");
    StripQuoted(p.val);
    StripCut(head, Quoted(p.val));
    StripKeyRest(p.key);
    if p.key != [] {
      FirstChar(p.key, "\":");
      StripOne('"', BodyText(p.key) + "\":");
      DropLast(p.key);
    } else {
      assert head == "\"\":";
      assert Strip("") == "";
    }
  }

  lemma {:induction false} DropLast(b: Body)
    requires b != []
    ensures |BodyText(b)| == |BodyText(b[..|b| - 1])| + |UnitText(b[|b| - 1])|
  {
    LastUnit(b);
    if |b| > 1 { DropLast(b[1..]); }
  }

  function Stripped(parts: seq<string>): (r: seq<string>)
    ensures |r| == |parts|
  {
    if parts == [] then [] else [Strip(parts[0])] + Stripped(parts[1..])
  }

  lemma {:induction false} StripJoin(parts: seq<string>)
    ensures Strip(Join(parts)) == Join(Stripped(parts))
  {
    if |parts| > 1 {
      StripCut(parts[0], "," + Join(parts[1..]));
      StripCut(",", Join(parts[1..]));
      StripJoin(parts[1..]);
      assert Strip(",") == ",";
    }
  }

  lemma StripBraces(inner: string)
    ensures Strip("{" + (inner + "}")) == "{" + (Strip(inner) + "}")
  {
    StripCut("{", inner + "}");
    StripCut(inner, "}");
    assert Strip("{") == "{" && Strip("}") == "}";
  }

  lemma {:induction false} StripUnnamed(parts: seq<string>)
    ensures Stripped(Unnamed(parts)) == Stripped(parts)
  {
    if parts != [] {
      var named := "\"\":" + parts[0];
      assert named[3..] == parts[0];
      StripUnnamed(parts[1..]);
    }
  }

  // ----- comparing what is left with what should be left

  predicate GoodKeys(o: Object) {
    forall p | p in o :: GoodKey(p.key)
  }

  predicate AllGood(os: seq<Object>) {
    forall o | o in os :: GoodKeys(o)
  }

  /** Stripping the parts loses length exactly when some part changes. */
  lemma {:induction false} JoinLength(parts: seq<string>)
    ensures |Join(Stripped(parts))| <= |Join(parts)|
    ensures |Join(Stripped(parts))| == |Join(parts)| ==> forall k | 0 <= k < |parts| :: |Strip(parts[k])| == |parts[k]|
  {
    if parts != [] { JoinLength(parts[1..]); }
  }

  lemma {:induction false} StripPairs(o: Object)
    ensures GoodKeys(o) ==> Stripped(PairTexts(o)) == PairTexts(o)
    ensures !GoodKeys(o) ==> exists k :: 0 <= k < |PairTexts(o)| && |Strip(PairTexts(o)[k])| < |PairTexts(o)[k]|
  {
    if o != [] {
      StripPair(o[0]);
      StripPairs(o[1..]);
      assert PairTexts(o)[1..] == PairTexts(o[1..]);
      if !GoodKeys(o) {
        if GoodKey(o[0].key) {
          assert !GoodKeys(o[1..]);
          var k :| 0 <= k < |PairTexts(o[1..])| && |Strip(PairTexts(o[1..])[k])| < |PairTexts(o[1..])[k]|;
          assert PairTexts(o)[k + 1] == PairTexts(o[1..])[k];
        } else {
          assert |Strip(PairTexts(o)[0])| < |PairTexts(o)[0]|;
        }
      }
    }
  }

  lemma StripObject(o: Object)
    ensures GoodKeys(o) ==> Strip(ObjectText(o)) == ObjectText(o)
    ensures !GoodKeys(o) ==> |Strip(ObjectText(o))| < |ObjectText(o)|
  {
    StripBraces(Join(PairTexts(o)));
    StripJoin(PairTexts(o));
    StripPairs(o);
    JoinLength(PairTexts(o));
  }

  lemma {:induction false} StripObjects(os: seq<Object>)
    ensures AllGood(os) ==> Stripped(ObjectTexts(os)) == ObjectTexts(os)
    ensures !AllGood(os)
        ==> exists k :: 0 <= k < |ObjectTexts(os)| && |Strip(ObjectTexts(os)[k])| < |ObjectTexts(os)[k]|
  {
    hide Strip, ObjectText;
    if os != [] {
      StripObject(os[0]);
      StripObjects(os[1..]);
      assert ObjectTexts(os)[1..] == ObjectTexts(os[1..]);
      if !AllGood(os) {
        if GoodKeys(os[0]) {
          assert !AllGood(os[1..]);
          var k :| 0 <= k < |ObjectTexts(os[1..])| && |Strip(ObjectTexts(os[1..])[k])| < |ObjectTexts(os[1..])[k]|;
          assert ObjectTexts(os)[k + 1] == ObjectTexts(os[1..])[k];
        } else {
          assert |Strip(ObjectTexts(os)[0])| < |ObjectTexts(os)[0]|;
        }
      }
    }
  }

  /** The brackets: the first brace of the stripped text is its first character, the last its last. */
  lemma Rebracket(inner: string)
    ensures CloseLast(OpenFirst("{" + (inner + "}"))) == "[" + (inner + "]")
  {
    var s := "{" + (inner + "}");
    assert OpenFirst(s) == "[" + (inner + "}");
    var t := "[" + (inner + "}");
    assert t[|t| - 1] == '}';
    assert t[..|t| - 1] == "[" + inner;
    assert "[" + inner + "]" == "[" + (inner + "]");
  }

  lemma RepairStatus(os: seq<Object>)
    ensures Repair(StatusText(os)) == "[" + (Join(Stripped(ObjectTexts(os))) + "]")
  {
    hide Strip, OpenFirst, CloseLast;
    StripBraces(Join(Unnamed(ObjectTexts(os))));
    StripJoin(Unnamed(ObjectTexts(os)));
    StripUnnamed(ObjectTexts(os));
    Rebracket(Join(Stripped(ObjectTexts(os))));
  }

  /** The repair produces the array of the objects exactly when every key is good. */
  lemma RepairCorrect(os: seq<Object>)
    ensures Repair(StatusText(os)) == ArrayText(os) <==> AllGood(os)
  {
    hide Strip, Repair, StatusText, ObjectTexts, Stripped, Join;
    RepairStatus(os);
    StripObjects(os);
    JoinLength(ObjectTexts(os));
    if !AllGood(os) {
      assert |Join(Stripped(ObjectTexts(os)))| < |Join(ObjectTexts(os))|;
    }
  }
}
