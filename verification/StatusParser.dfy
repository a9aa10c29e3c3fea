/**
 A parser for compact JSON arrays of string-valued objects, and the point of the repair: the
 repaired text parses to the objects osquery sent, in order, exactly when every key is good.
 */
module StatusParser {
  import opened Bytes
  import opened StatusRepair

  function ParseBody(s: string): (r: Option<(Body, string)>)
    ensures r.Some? ==> |r.value.1| < |s|
  {
    if s == "" then None
    else if s[0] == '"' then Some(([], s[1..]))
    else if s[0] == '\\' then
      if |s| < 2 then None else
        match ParseBody(s[2..])
        case None => None
        case Some((b, rest)) => Some(([Escape(s[1])] + b, rest))
    else
      match ParseBody(s[1..])
      case None => None
      case Some((b, rest)) => Some(([Plain(s[0])] + b, rest))
  }

  function ParseQuoted(s: string): (r: Option<(Body, string)>)
    ensures r.Some? ==> |r.value.1| < |s|
  {
    if s != "" && s[0] == '"' then ParseBody(s[1..]) else None
  }

  function ParsePair(s: string): (r: Option<(Pair, string)>)
    ensures r.Some? ==> |r.value.1| < |s|
  {
    match ParseQuoted(s)
    case None => None
    case Some((k, t)) =>
      if t == "" || t[0] != ':' then None else
        match ParseQuoted(t[1..])
        case None => None
        case Some((v, rest)) => Some((Pair(k, v), rest))
  }

  /** One or more members and the closing brace. */
  function ParsePairs(s: string): (r: Option<(Object, string)>)
    ensures r.Some? ==> |r.value.1| < |s|
    decreases |s|
  {
    match ParsePair(s)
    case None => None
    case Some((p, t)) =>
      if t != "" && t[0] == '}' then Some(([p], t[1..]))
      else if t != "" && t[0] == ',' then
        match ParsePairs(t[1..])
        case None => None
        case Some((o, rest)) => Some(([p] + o, rest))
      else None
  }

  function ParseObject(s: string): (r: Option<(Object, string)>)
    ensures r.Some? ==> |r.value.1| < |s|
  {
    if |s| < 2 || s[0] != '{' then None
    else if s[1] == '}' then Some(([], s[2..]))
    else ParsePairs(s[1..])
  }

  /** One or more elements and the closing bracket, to the end of the text. */
  function ParseObjects(s: string): Option<seq<Object>>
    decreases |s|
  {
    match ParseObject(s)
    case None => None
    case Some((o, t)) =>
      if t == "]" then Some([o])
      else if t != "" && t[0] == ',' then
        match ParseObjects(t[1..])
        case None => None
        case Some(os) => Some([o] + os)
      else None
  }

  function ParseArray(s: string): Option<seq<Object>> {
    if s == "[]" then Some([])
    else if s != "" && s[0] == '[' then ParseObjects(s[1..])
    else None
  }

  // ----- printed text is parsed back

  lemma {:induction false} BodyParsed(b: Body, rest: string)
    ensures ParseBody(BodyText(b) + ("\"" + rest)) == Some((b, rest))
  {
    var s := BodyText(b) + ("\"" + rest);
    if b == [] {
      assert s == "\"" + rest && s[1..] == rest;
    } else {
      var tail := BodyText(b[1..]) + ("\"" + rest);
      BodyParsed(b[1..], rest);
      assert s == UnitText(b[0]) + tail;
      assert s[|UnitText(b[0])|..] == tail;
      assert [b[0]] + b[1..] == b;
    }
  }

  lemma QuotedParsed(b: Body, rest: string)
    ensures ParseQuoted(Quoted(b) + rest) == Some((b, rest))
  {
    hide ParseBody, BodyText;
    BodyParsed(b, rest);
    assert (Quoted(b) + rest)[1..] == BodyText(b) + ("\"" + rest);
  }

  lemma PairParsed(p: Pair, rest: string)
    ensures ParsePair(PairText(p) + rest) == Some((p, rest))
  {
    hide ParseQuoted, BodyText;
    var t := ":" + (Quoted(p.val) + rest);
    assert PairText(p) + rest == Quoted(p.key) + t;
    QuotedParsed(p.key, t);
    assert t[1..] == Quoted(p.val) + rest;
    QuotedParsed(p.val, rest);
  }

  lemma {:induction false} PairsParsed(o: Object, rest: string)
    requires o != []
    ensures ParsePairs(Join(PairTexts(o)) + ("}" + rest)) == Some((o, rest))
    decreases |o|
  {
    hide ParsePair, PairText;
    var end := "}" + rest;
    if |o| == 1 {
      assert PairTexts(o) == [PairText(o[0])];
      PairParsed(o[0], end);
      assert end[1..] == rest;
      assert [o[0]] == o;
    } else {
      var tail := Join(PairTexts(o[1..])) + end;
      assert PairTexts(o)[1..] == PairTexts(o[1..]);
      assert |PairTexts(o)| > 1 by { assert PairTexts(o[1..]) != []; }
      assert Join(PairTexts(o)) + end == PairText(o[0]) + ("," + tail);
      PairParsed(o[0], "," + tail);
      assert ("," + tail)[1..] == tail;
      PairsParsed(o[1..], rest);
      assert [o[0]] + o[1..] == o;
    }
  }

  lemma ObjectParsed(o: Object, rest: string)
    ensures ParseObject(ObjectText(o) + rest) == Some((o, rest))
  {
    hide ParsePairs, PairText;
    var s := ObjectText(o) + rest;
    assert s[1..] == Join(PairTexts(o)) + ("}" + rest);
    if o == [] {
      assert s == "{}" + rest && s[2..] == rest;
    } else {
      PairsParsed(o, rest);
      PairsStart(o);
    }
  }

  lemma PairsStart(o: Object)
    requires o != []
    ensures Join(PairTexts(o)) != "" && Join(PairTexts(o))[0] == '"'
  {
  }

  lemma {:induction false} ObjectsParsed(os: seq<Object>)
    requires os != []
    ensures ParseObjects(Join(ObjectTexts(os)) + "]") == Some(os)
    decreases |os|
  {
    hide ParseObject, ObjectText;
    if |os| == 1 {
      assert ObjectTexts(os) == [ObjectText(os[0])];
      ObjectParsed(os[0], "]");
      assert [os[0]] == os;
    } else {
      var tail := Join(ObjectTexts(os[1..])) + "]";
      assert ObjectTexts(os)[1..] == ObjectTexts(os[1..]);
      assert |ObjectTexts(os)| > 1 by { assert ObjectTexts(os[1..]) != []; }
      assert Join(ObjectTexts(os)) + "]" == ObjectText(os[0]) + ("," + tail);
      ObjectParsed(os[0], "," + tail);
      assert ("," + tail)[1..] == tail && ("," + tail)[0] == ',';
      ObjectsParsed(os[1..]);
      assert [os[0]] + os[1..] == os;
    }
  }

  lemma ArrayParsed(os: seq<Object>)
    ensures ParseArray(ArrayText(os)) == Some(os)
  {
    hide ParseObjects, ObjectText;
    if os != [] {
      ObjectsParsed(os);
      assert ArrayText(os)[1..] == Join(ObjectTexts(os)) + "]";
      ObjectsStart(os);
    }
  }

  lemma ObjectsStart(os: seq<Object>)
    requires os != []
    ensures Join(ObjectTexts(os)) != "" && Join(ObjectTexts(os))[0] == '{'
  {
  }

  // ----- only printed text is parsed

  lemma {:induction false} BodySound(s: string)
    requires ParseBody(s).Some?
    ensures var (b, rest) := ParseBody(s).value; s == BodyText(b) + ("\"" + rest)
  {
    if s[0] == '"' {
      assert s == "\"" + s[1..];
    } else {
      var u := if s[0] == '\\' then Escape(s[1]) else Plain(s[0]);
      var t := s[|UnitText(u)|..];
      BodySound(t);
      var (b, rest) := ParseBody(t).value;
      assert s == UnitText(u) + t;
      assert ([u] + b)[0] == u && ([u] + b)[1..] == b;
      assert UnitText(u) + (BodyText(b) + ("\"" + rest)) == (UnitText(u) + BodyText(b)) + ("\"" + rest);
    }
  }

  lemma QuotedSound(s: string)
    requires ParseQuoted(s).Some?
    ensures var (b, rest) := ParseQuoted(s).value; s == Quoted(b) + rest
  {
    hide ParseBody, BodyText;
    BodySound(s[1..]);
    var (b, rest) := ParseQuoted(s).value;
    assert s == "\"" + s[1..];
    assert "\"" + (BodyText(b) + ("\"" + rest)) == Quoted(b) + rest;
  }

  lemma PairSound(s: string)
    requires ParsePair(s).Some?
    ensures var (p, rest) := ParsePair(s).value; s == PairText(p) + rest
  {
    hide ParseQuoted, BodyText;
    QuotedSound(s);
    var (k, t) := ParseQuoted(s).value;
    QuotedSound(t[1..]);
    var (v, rest) := ParseQuoted(t[1..]).value;
    assert t == ":" + t[1..];
    assert Quoted(k) + (":" + (Quoted(v) + rest)) == PairText(Pair(k, v)) + rest;
  }

  lemma JoinCons(part: string, parts: seq<string>, end: string)
    requires parts != []
    ensures Join([part] + parts) + end == part + ("," + (Join(parts) + end))
  {
    assert ([part] + parts)[1..] == parts;
  }

  lemma {:induction false} PairsSound(s: string)
    requires ParsePairs(s).Some?
    ensures var (o, rest) := ParsePairs(s).value; o != [] && s == Join(PairTexts(o)) + ("}" + rest)
    decreases |s|
  {
    hide ParsePair, PairText;
    PairSound(s);
    var (p, t) := ParsePair(s).value;
    if t[0] == '}' {
      assert t == "}" + t[1..];
      assert PairTexts([p]) == [PairText(p)];
    } else {
      PairsSound(t[1..]);
      var (o, rest) := ParsePairs(t[1..]).value;
      assert t == "," + t[1..];
      assert ([p] + o)[1..] == o;
      assert PairTexts([p] + o) == [PairText(p)] + PairTexts(o);
      JoinCons(PairText(p), PairTexts(o), "}" + rest);
    }
  }

  lemma ObjectSound(s: string)
    requires ParseObject(s).Some?
    ensures var (o, rest) := ParseObject(s).value; s == ObjectText(o) + rest
  {
    hide ParsePairs, PairText;
    var (o, rest) := ParseObject(s).value;
    if s[1] == '}' {
      assert s == "{}" + s[2..];
      assert ObjectText([]) == "{}";
    } else {
      PairsSound(s[1..]);
      assert s == "{" + s[1..];
      assert "{" + (Join(PairTexts(o)) + ("}" + rest)) == ObjectText(o) + rest;
    }
  }

  lemma {:induction false} ObjectsSound(s: string)
    requires ParseObjects(s).Some?
    ensures ParseObjects(s).value != [] && s == Join(ObjectTexts(ParseObjects(s).value)) + "]"
    decreases |s|
  {
    hide ParseObject, ObjectText;
    ObjectSound(s);
    var (o, t) := ParseObject(s).value;
    if t == "]" {
      assert ObjectTexts([o]) == [ObjectText(o)];
    } else {
      ObjectsSound(t[1..]);
      var os := ParseObjects(t[1..]).value;
      assert t == "," + t[1..];
      assert ([o] + os)[1..] == os;
      assert ObjectTexts([o] + os) == [ObjectText(o)] + ObjectTexts(os);
      JoinCons(ObjectText(o), ObjectTexts(os), "]");
    }
  }

  lemma ArraySound(s: string)
    requires ParseArray(s).Some?
    ensures s == ArrayText(ParseArray(s).value)
  {
    hide ParseObjects, ObjectText;
    if s != "[]" {
      ObjectsSound(s[1..]);
      assert s == "[" + s[1..];
    }
  }

  /** Parsing the repaired text returns the objects sent, in order, exactly when every key is good. */
  lemma RepairParses(os: seq<Object>)
    ensures ParseArray(Repair(StatusText(os))) == Some(os) <==> AllGood(os)
  {
    hide ParseArray, Repair, StatusText, ArrayText, AllGood;
    RepairCorrect(os);
    ArrayParsed(os);
    if ParseArray(Repair(StatusText(os))) == Some(os) {
      ArraySound(Repair(StatusText(os)));
    }
  }

  /** An input the repair spoils: one object whose only key is a double quote. */
  lemma QuoteKeySpoils()
    ensures ParseArray(Repair(StatusText([[Pair([Escape('"')], [])]]))) != Some([[Pair([Escape('"')], [])]])
  {
    var o: Object := [Pair([Escape('"')], [])];
    assert o in [o] && o[0] in o && !GoodKey(o[0].key);
    RepairParses([o]);
  }
}
