/**
 The logger plugin: one request's entries in key order, each handed to a stateful callback, with
 the status list repaired and parsed first. Text is bytes on the wire and characters inside.
 */
module Logger {
  import opened Bytes
  import opened StatusRepair
  import opened StatusParser

  datatype LogType = Health | Init | Snapshot | Status | String | Log

  function Print(t: LogType): string {
    match t
    case Health => "health"
    case Init => "init"
    case Snapshot => "snapshot"
    case Status => "status"
    case String => "string"
    case Log => "log"
  }

  function Parse(s: string): Option<LogType> {
    if s == "health" then Some(Health)
    else if s == "init" then Some(Init)
    else if s == "snapshot" then Some(Snapshot)
    else if s == "status" then Some(Status)
    else if s == "log" then Some(Log)
    else if s == "string" then Some(String)
    else None
  }

  lemma PrintParse(t: LogType, s: string)
    ensures Parse(s) == Some(t) <==> s == Print(t)
  {
    assert |"health"| == 6 && |"init"| == 4 && |"snapshot"| == 8 && |"status"| == 6 && |"string"| == 6 && |"log"| == 3;
    assert "health"[0] != "status"[0] && "status"[2] != "string"[2] && "health"[0] != "string"[0];
  }

  function Chars(t: Text): string {
    seq(|t|, i requires 0 <= i < |t| => t[i] as char)
  }

  const LOG: Text := [108, 111, 103]

  /** What a JSON parser makes of a text: not JSON, JSON but no array, or an array's elements. */
  datatype Parsed<+J> = Malformed(why: string) | NotArray | Elements(items: seq<J>)

  /** The log callback over the state it captures, and the JSON library. */
  datatype Config<!S, !J> = Config(
    log: (S, LogType, string) -> (S, Option<string>),
    parse: string -> Parsed<J>,
    show: J -> string)

  datatype Problem =
    | UnknownType(typ: Text)
    | EmptyStatus
    | ParseError(why: string)
    | NotAnArray
    | LogFailed(kind: LogType, why: string)

  /** What one request asks for, before the callback has its say. */
  datatype Event = Deliver(kind: LogType, text: string) | Fail(problem: Problem)

  function Deliveries<J>(show: J -> string, items: seq<J>): (r: seq<Event>)
    ensures |r| == |items| && forall i | 0 <= i < |r| :: r[i] == Deliver(Status, show(items[i]))
  {
    if items == [] then [] else [Deliver(Status, show(items[0]))] + Deliveries(show, items[1..])
  }

  function StatusEvents<S, J>(cfg: Config<S, J>, req: map<Text, Text>): seq<Event> {
    if LOG !in req || req[LOG] == [] then [Fail(EmptyStatus)] else
      match cfg.parse(Repair(Chars(req[LOG])))
      case Malformed(why) => [Fail(ParseError(why))]
      case NotArray => [Fail(NotAnArray)]
      case Elements(items) => Deliveries(cfg.show, items)
  }

  function Events<S, J>(cfg: Config<S, J>, req: map<Text, Text>, typ: Text): seq<Event>
    requires typ in req
  {
    match Parse(Chars(typ))
    case None => [Fail(UnknownType(typ))]
    case Some(Status) => StatusEvents(cfg, req)
    case Some(Log) => []
    case Some(kind) => [Deliver(kind, Chars(req[typ]))]
  }

  function Plan<S, J>(cfg: Config<S, J>, req: map<Text, Text>, keys: seq<Text>): seq<Event>
    requires forall k | k in keys :: k in req
  {
    if keys == [] then [] else Events(cfg, req, keys[0]) + Plan(cfg, req, keys[1..])
  }

  /** Carrying events out: the callback's state is threaded through, its failures are collected. */
  function Carry<S, J>(cfg: Config<S, J>, s: S, events: seq<Event>): (S, seq<Problem>)
    decreases |events|
  {
    if events == [] then (s, []) else
      match events[0]
      case Fail(p) => var (t, ps) := Carry(cfg, s, events[1..]); (t, [p] + ps)
      case Deliver(kind, text) =>
        var (s', failure) := cfg.log(s, kind, text);
        var (t, ps) := Carry(cfg, s', events[1..]);
        (t, (if failure.Some? then [LogFailed(kind, failure.value)] else []) + ps)
  }

  lemma Assoc(a: seq<Problem>, b: seq<Problem>, c: seq<Problem>)
    ensures a + (b + c) == (a + b) + c
  {
  }

  lemma {:induction false} CarryAppend<S, J>(cfg: Config<S, J>, s: S, a: seq<Event>, b: seq<Event>)
    ensures var (s1, ps1) := Carry(cfg, s, a);
            var (s2, ps2) := Carry(cfg, s1, b);
            Carry(cfg, s, a + b) == (s2, ps1 + ps2)
    decreases |a|
  {
    if a == [] {
      assert a + b == b;
      assert [] + Carry(cfg, s, b).1 == Carry(cfg, s, b).1;
    } else {
      assert (a + b)[0] == a[0] && (a + b)[1..] == a[1..] + b;
      match a[0] {
        case Fail(p) =>
          CarryAppend(cfg, s, a[1..], b);
          Assoc([p], Carry(cfg, s, a[1..]).1, Carry(cfg, Carry(cfg, s, a[1..]).0, b).1);
        case Deliver(kind, text) =>
          var (s', failure) := cfg.log(s, kind, text);
          CarryAppend(cfg, s', a[1..], b);
          Assoc(if failure.Some? then [LogFailed(kind, failure.value)] else [],
                Carry(cfg, s', a[1..]).1, Carry(cfg, Carry(cfg, s', a[1..]).0, b).1);
      }
    }
  }

  datatype Outcome = Ok | Err(problems: seq<Problem>)

  /** The plugin's answer to a request, and the state it leaves the callback in. */
  ghost function Answer<S, J>(cfg: Config<S, J>, s: S, req: map<Text, Text>): (S, Outcome) {
    var (t, ps) := Carry(cfg, s, Plan(cfg, req, SortedKeys(req.Keys)));
    (t, if ps == [] then Ok else Err(ps))
  }

  class LoggerPlugin<S(!new), J(!new)> {
    const cfg: Config<S, J>
    var state: S
    var hook: bool                      // a shutdown hook is set and has not run
    var hookRuns: nat

    constructor (cfg: Config<S, J>, state: S, hook: bool)
      ensures this.cfg == cfg && this.state == state && this.hook == hook && hookRuns == 0
    {
      this.cfg := cfg;
      this.state := state;
      this.hook := hook;
      hookRuns := 0;
    }

    /** Runs the hook the first time only. */
    method Shutdown()
      modifies this`hook, this`hookRuns
      ensures !hook && hookRuns == old(hookRuns) + (if old(hook) then 1 else 0)
    {
      if hook {
        hook := false;
        hookRuns := hookRuns + 1;
      }
    }

    method Hand(kind: LogType, text: string, errors: seq<Problem>) returns (all: seq<Problem>)
      modifies this`state
      ensures var (t, ps) := Carry(cfg, old(state), [Deliver(kind, text)]); state == t && all == errors + ps
    {
      var (next, failure) := cfg.log(state, kind, text);
      state := next;
      all := if failure.Some? then errors + [LogFailed(kind, failure.value)] else errors;
      assert [Deliver(kind, text)][1..] == [];
    }

    method LogStatus(req: map<Text, Text>, errors: seq<Problem>) returns (all: seq<Problem>)
      modifies this`state
      ensures var (t, ps) := Carry(cfg, old(state), StatusEvents(cfg, req)); state == t && all == errors + ps
    {
      if LOG !in req || req[LOG] == [] {
        return errors + [EmptyStatus];
      }
      var json := Strip(Chars(req[LOG]));
      json := OpenFirst(json);
      json := CloseLast(json);
      match cfg.parse(json)
      case Malformed(why) => return errors + [ParseError(why)];
      case NotArray => return errors + [NotAnArray];
      case Elements(items) =>
        hide Strip, OpenFirst, CloseLast;
        all := errors;
        ghost var events := Deliveries(cfg.show, items);
        for i := 0 to |items|
          invariant Carried(old(state), errors, events[..i], all)
        {
          ghost var before, sofar := state, all;
          all := Hand(Status, cfg.show(items[i]), all);
          assert events[..i + 1] == events[..i] + [events[i]];
          CarryAppend(cfg, old(state), events[..i], [events[i]]);
        }
        assert events[..|items|] == events;
    }

    /** Carrying out `events` from `start` has led here. */
    ghost predicate Carried(start: S, errors: seq<Problem>, events: seq<Event>, all: seq<Problem>)
      reads this`state
    {
      var (t, ps) := Carry(cfg, start, events);
      state == t && all == errors + ps
    }

    /** `call` */
    method Call(req: map<Text, Text>) returns (r: Outcome)
      modifies this`state
      ensures (state, r) == Answer(cfg, old(state), req)
    {
      hide Events, Plan, Carry, SortedKeys;
      var errors: seq<Problem> := [];
      var keys := req.Keys;
      ghost var done: seq<Event> := [];
      Nothing(cfg, state, req);
      while keys != {}
        invariant keys <= req.Keys
        invariant done + Plan(cfg, req, SortedKeys(keys)) == Plan(cfg, req, SortedKeys(req.Keys))
        invariant Carry(cfg, old(state), done) == (state, errors)
      {
        LeastExists(keys);
        var typ: Text :| typ in keys && IsLeast(typ, keys);
        SortedKeysStep(keys, typ);
        PlanStep(cfg, req, typ, SortedKeys(keys - {typ}), done);
        CarryAppend(cfg, old(state), done, Events(cfg, req, typ));
        errors := LogEntry(req, typ, errors);
        done := done + Events(cfg, req, typ);
        keys := keys - {typ};
      }
      assert done + [] == done;
      r := if errors == [] then Ok else Err(errors);
    }

    method LogEntry(req: map<Text, Text>, typ: Text, errors: seq<Problem>) returns (all: seq<Problem>)
      requires typ in req
      modifies this`state
      ensures var (t, ps) := Carry(cfg, old(state), Events(cfg, req, typ)); state == t && all == errors + ps
    {
      hide StatusEvents;
      match Parse(Chars(typ))
      case None => all := errors + [UnknownType(typ)];
      case Some(Status) => all := LogStatus(req, errors);
      case Some(Log) => all := errors;
      case Some(kind) => all := Hand(kind, Chars(req[typ]), errors);
    }
  }

  lemma PlanStep<S, J>(cfg: Config<S, J>, req: map<Text, Text>, typ: Text, rest: seq<Text>, done: seq<Event>)
    requires typ in req && forall k | k in rest :: k in req
    ensures done + Plan(cfg, req, [typ] + rest) == (done + Events(cfg, req, typ)) + Plan(cfg, req, rest)
  {
    assert ([typ] + rest)[1..] == rest;
  }

  lemma Nothing<S, J>(cfg: Config<S, J>, s: S, req: map<Text, Text>)
    ensures Carry(cfg, s, []) == (s, [])
    ensures SortedKeys({}) == [] && Plan(cfg, req, []) == []
  {
  }

  // ------------------------------------------------------------------ what a request delivers

  /** A request succeeds exactly when nothing it asks for is malformed and every delivery succeeds. */
  lemma {:induction false} OkMeansAllDelivered<S, J>(cfg: Config<S, J>, s: S, events: seq<Event>)
    ensures Carry(cfg, s, events).1 == [] <==>
              forall i | 0 <= i < |events| ::
                events[i].Deliver? && cfg.log(Carry(cfg, s, events[..i]).0, events[i].kind, events[i].text).1.None?
    decreases |events|
  {
    if events != [] {
      var e := events[|events| - 1];
      var front := events[..|events| - 1];
      assert events == front + [e];
      CarryAppend(cfg, s, front, [e]);
      OkMeansAllDelivered(cfg, s, front);
      CarryOne(cfg, Carry(cfg, s, front).0, e);
      assert forall i | 0 <= i < |front| :: front[i] == events[i] && front[..i] == events[..i];
      hide Carry;
    }
  }

  lemma CarryOne<S, J>(cfg: Config<S, J>, s: S, e: Event)
    ensures Carry(cfg, s, [e]).1 == [] <==> e.Deliver? && cfg.log(s, e.kind, e.text).1.None?
    ensures e.Fail? ==> Carry(cfg, s, [e]) == (s, [e.problem])
    ensures e.Deliver? ==>
              var (t, failure) := cfg.log(s, e.kind, e.text);
              Carry(cfg, s, [e]) == (t, if failure.None? then [] else [LogFailed(e.kind, failure.value)])
  {
    assert [e][1..] == [];
    match e
    case Fail(p) => assert [p] + [] == [p];
    case Deliver(kind, text) =>
      var failure := cfg.log(s, kind, text).1;
      var ps := if failure.Some? then [LogFailed(kind, failure.value)] else [];
      assert ps + [] == ps;
  }

  // ----- what the callback is given

  /** The same plugin, its callback also writing down what it is given. */
  function Recording<S, J>(cfg: Config<S, J>): Config<(S, seq<(LogType, string)>), J> {
    Config((h: (S, seq<(LogType, string)>), kind: LogType, text: string) =>
             var (s, failure) := cfg.log(h.0, kind, text);
             ((s, h.1 + [(kind, text)]), failure),
           cfg.parse, cfg.show)
  }

  function Handed(events: seq<Event>): seq<(LogType, string)> {
    if events == [] then [] else
      (if events[0].Deliver? then [(events[0].kind, events[0].text)] else []) + Handed(events[1..])
  }

  /** Every delivery is handed over, as it is and in order, whatever fails on the way, and the failures are kept. */
  lemma {:induction false} AllHandedOver<S, J>(cfg: Config<S, J>, s: S, log: seq<(LogType, string)>, events: seq<Event>)
    ensures var (t, ps) := Carry(cfg, s, events);
            Carry(Recording(cfg), (s, log), events) == ((t, log + Handed(events)), ps)
    decreases |events|
  {
    if events == [] {
      assert log + [] == log;
    } else {
      match events[0] {
        case Fail(_) =>
          AllHandedOver(cfg, s, log, events[1..]);
          assert [] + Handed(events[1..]) == Handed(events[1..]);
        case Deliver(kind, text) =>
          AllHandedOver(cfg, cfg.log(s, kind, text).0, log + [(kind, text)], events[1..]);
          assert log + [(kind, text)] + Handed(events[1..]) == log + ([(kind, text)] + Handed(events[1..]));
      }
    }
  }

  /** What each entry of a request asks for, by the name it stands under. */
  lemma EventsByName<S, J>(cfg: Config<S, J>, req: map<Text, Text>, typ: Text)
    requires typ in req
    ensures var name, entry, events := Chars(typ), Chars(req[typ]), Events(cfg, req, typ);
            && (name == "health" ==> events == [Deliver(Health, entry)])
            && (name == "init" ==> events == [Deliver(Init, entry)])
            && (name == "snapshot" ==> events == [Deliver(Snapshot, entry)])
            && (name == "string" ==> events == [Deliver(String, entry)])
            && (name == "log" ==> events == [])
            && (name == "status" && (LOG !in req || req[LOG] == []) ==> events == [Fail(EmptyStatus)])
            && (name !in {"health", "init", "snapshot", "string", "log", "status"} ==>
                  events == [Fail(UnknownType(typ))])
  {
    PrintParse(Health, Chars(typ));
    PrintParse(Init, Chars(typ));
    PrintParse(Snapshot, Chars(typ));
    PrintParse(String, Chars(typ));
    PrintParse(Log, Chars(typ));
    PrintParse(Status, Chars(typ));
  }

  /** A request asks for what its entries ask for, one after the other. */
  lemma {:induction false} PlanAppend<S, J>(cfg: Config<S, J>, req: map<Text, Text>, a: seq<Text>, b: seq<Text>)
    requires forall k | k in a + b :: k in req
    ensures Plan(cfg, req, a + b) == Plan(cfg, req, a) + Plan(cfg, req, b)
    ensures |a| == 1 ==> Plan(cfg, req, a) == Events(cfg, req, a[0])
    decreases |a|
  {
    hide Events;
    if a == [] {
      assert a + b == b;
    } else {
      assert (a + b)[0] == a[0] && (a + b)[1..] == a[1..] + b;
      PlanAppend(cfg, req, a[1..], b);
    }
  }

  /** Keys in the order of a BTreeMap: the only such sequence there is. */
  ghost predicate InOrder(keys: seq<Text>, all: set<Text>) {
    (forall k :: k in keys <==> k in all) && (forall i, j | 0 <= i < j < |keys| :: Below(keys[i], keys[j]))
  }

  lemma {:induction false} OrderUnique(keys: seq<Text>, all: set<Text>)
    requires InOrder(keys, all)
    ensures keys == SortedKeys(all)
    decreases |keys|
  {
    if keys == [] {
      assert all == {};
    } else {
      var k := keys[0];
      assert IsLeast(k, all);
      forall j | j in keys[1..] ensures j != k {
        BelowTrichotomy(k, j);
      }
      assert forall j :: j in keys <==> j == k || j in keys[1..];
      assert InOrder(keys[1..], all - {k});
      OrderUnique(keys[1..], all - {k});
      SortedKeysStep(all, k);
    }
  }

  /**
   A request is answered with success exactly when everything its entries ask for, in key order, is
   delivered without failure; otherwise with all the failures, in order.
   */
  lemma AnswerIffDelivered<S, J>(cfg: Config<S, J>, s: S, req: map<Text, Text>, keys: seq<Text>)
    requires InOrder(keys, req.Keys)
    ensures var events := Plan(cfg, req, keys);
            var (t, r) := Answer(cfg, s, req);
            && t == Carry(cfg, s, events).0
            && (r.Ok? <==> forall i | 0 <= i < |events| ::
                  events[i].Deliver? && cfg.log(Carry(cfg, s, events[..i]).0, events[i].kind, events[i].text).1.None?)
            && (r.Err? ==> r.problems == Carry(cfg, s, events).1)
  {
    OrderUnique(keys, req.Keys);
    OkMeansAllDelivered(cfg, s, Plan(cfg, req, keys));
    hide Plan, SortedKeys, InOrder, Carry;
  }

  /** The text the JSON library is given is the array of the objects sent, if and only if no key is spoiled. */
  lemma StatusTextRepaired(req: map<Text, Text>, os: seq<Object>)
    requires LOG in req && Chars(req[LOG]) == StatusText(os)
    ensures Repair(Chars(req[LOG])) == ArrayText(os) <==> AllGood(os)
  {
    RepairCorrect(os);
  }

  /** Whatever JSON library it is: on unspoiled keys the callback gets what it makes of that very array. */
  lemma StatusAsParsed<S, J>(cfg: Config<S, J>, req: map<Text, Text>, typ: Text, os: seq<Object>)
    requires typ in req && Chars(typ) == "status"
    requires LOG in req && Chars(req[LOG]) == StatusText(os) && AllGood(os)
    ensures var events := Events(cfg, req, typ);
            match cfg.parse(ArrayText(os))
            case Malformed(why) => events == [Fail(ParseError(why))]
            case NotArray => events == [Fail(NotAnArray)]
            case Elements(items) =>
              |events| == |items| && forall i | 0 <= i < |items| :: events[i] == Deliver(Status, cfg.show(items[i]))
  {
    PrintParse(Status, Chars(typ));
    StatusTextRepaired(req, os);
    assert Chars(req[LOG]) != "" by { assert |StatusText(os)| >= 2; }
    assert |req[LOG]| == |Chars(req[LOG])|;
    hide Repair, StatusText, ArrayText, AllGood;
  }

  /** A parser that reads compact arrays of flat objects, and prints an object back. */
  ghost predicate Compact<S>(cfg: Config<S, Object>) {
    && (forall t :: cfg.parse(t) == match ParseArray(t) case Some(os) => Elements(os) case None => Malformed(t))
    && (forall o :: cfg.show(o) == ObjectText(o))
  }

  /**
   osquery's malformed list, under `log`, with any `status` entry: the callback gets exactly the
   objects sent, in their order, if and only if no key is empty or ends in a quote.
   */
  lemma StatusDelivered<S>(cfg: Config<S, Object>, req: map<Text, Text>, typ: Text, os: seq<Object>)
    requires Compact(cfg) && typ in req && Chars(typ) == Print(Status)
    requires LOG in req && Chars(req[LOG]) == StatusText(os)
    ensures Events(cfg, req, typ) == Deliveries(ObjectText, os) <==> AllGood(os)
  {
    hide ParseArray, Repair, ObjectText, AllGood;
    PrintParse(Status, Chars(typ));
    RepairParses(os);
    assert Chars(req[LOG]) != "" by { assert |StatusText(os)| >= 2; }
    assert |req[LOG]| == |Chars(req[LOG])|;
    hide StatusText;
    var json := Repair(StatusText(os));
    if ParseArray(json).Some? {
      ShowIgnored(cfg, ParseArray(json).value);
      if Events(cfg, req, typ) == Deliveries(ObjectText, os) {
        SameObjects(ParseArray(json).value, os);
      }
    } else if os == [] {
      assert Events(cfg, req, typ) != [];
    } else {
      assert Deliveries(ObjectText, os)[0].Deliver?;
    }
  }

  lemma {:induction false} ShowIgnored<S>(cfg: Config<S, Object>, os: seq<Object>)
    requires Compact(cfg)
    ensures Deliveries(cfg.show, os) == Deliveries(ObjectText, os)
    decreases |os|
  {
    if os != [] {
      ShowIgnored(cfg, os[1..]);
    }
  }

  /** Objects that print alike are alike. */
  lemma SameObjects(a: seq<Object>, b: seq<Object>)
    requires Deliveries(ObjectText, a) == Deliveries(ObjectText, b)
    ensures a == b
  {
    assert |a| == |Deliveries(ObjectText, a)| == |b|;
    forall i | 0 <= i < |a|
      ensures a[i] == b[i]
    {
      assert Deliveries(ObjectText, a)[i] == Deliveries(ObjectText, b)[i];
      ObjectParsed(a[i], "");
      ObjectParsed(b[i], "");
    }
  }
}
