/** The handler an extension serves requests with: the registry lookup in front of the plugins. */
module Extension {
  import opened Bytes
  import W = Wire
  import opened Processor
  import opened Replies
  import opened Client
  import opened Session
  import R = Registry

  /** What `handle_call` and the others need to know of the rest: the plugins' code and the texts of errors. */
  datatype Parts<!S> = Parts(
    entries: R.Entries,
    run: (S, R.Plugin, W.Row) -> (S, Outcome),
    stop: S -> (S, Reply<()>),
    unknownRegistry: Text -> Text,
    unknownItem: Text -> Text)

  /** `handle_call`: the plugin's outcome, or a status saying which name is unknown. */
  function HandleCall<S>(x: Parts<S>, s: S, a: W.CallArgs): (S, Outcome) {
    match R.Find(x.entries, a.registry, a.item)
    case UnknownRegistry => (s, OtherFailure(x.unknownRegistry(a.registry)))
    case UnknownItem => (s, OtherFailure(x.unknownItem(a.item)))
    case Found(plugin) => x.run(s, plugin, a.request)
  }

  /** `handle_ping` and `handle_shutdown` beside it. */
  function Base<S>(x: Parts<S>, base: Handler<S>): Handler<S> {
    base.(ping := (s: S) => (s, Return(W.Status(Some(0), Some(OK_TEXT), None))), shutdown := x.stop)
  }

  function Plugins<S>(x: Parts<S>): (S, W.CallArgs) -> (S, Outcome) {
    (s: S, a: W.CallArgs) => HandleCall(x, s, a)
  }

  /**
   A caller that asks for what the extension told osquery of gets the outcome of the plugin with those
   very names, which declared those routes, and no other plugin runs; one that asks for anything else
   gets status 1, and no plugin runs.
   */
  lemma CallsReachWhatIsAdvertised<S>(x: Parts<S>, base: Handler<S>, s: S, calls: seq<R.Call>, ads: W.Registry,
                                      a: W.CallArgs)
    requires x.entries == R.After(calls) && R.Describes(x.entries, ads)
    ensures var (t, heard) := Due(Plugins(x), Base(x, base), s, AskCall(a));
            if a.registry in ads && a.item in ads[a.registry] then
              exists p: R.Plugin ::
                && R.Print(p.registry) == a.registry && p.name == a.item && p.routes == ads[a.registry][a.item]
                && t == x.run(s, p, a.request).0
                && heard == Called(Answered(Delivered(x.run(s, p, a.request).1)))
            else
              && t == s
              && heard == Called(Answered(StatusError(1, if a.registry in ads then x.unknownItem(a.item)
                                                         else x.unknownRegistry(a.registry))))
  {
    R.AdvertisedAfterAnyCalls(calls, ads, a.registry, a.item);
    R.AdvertisedIsReachable(x.entries, ads, a.registry, a.item);
    hide R.Find, R.After, R.Describes, R.Print;
    var found := R.Find(x.entries, a.registry, a.item);
    if found.Found? {
      var p := found.plugin;
      assert Due(Plugins(x), Base(x, base), s, AskCall(a))
          == (x.run(s, p, a.request).0, Called(Answered(Delivered(x.run(s, p, a.request).1))));
    }
  }

  /** Every ping is answered with code 0 and "OK", which the caller's fold accepts, and no plugin is involved. */
  lemma PingsAnswered<S>(x: Parts<S>, base: Handler<S>, s: S)
    ensures var (t, heard) := Due(Plugins(x), Base(x, base), s, AskPing);
            && t == s && heard.Pinged? && heard.status.Answered?
            && heard.status.value.code == Some(0) && heard.status.value.message == Some([79, 75])
            && StatusOk(Some(heard.status.value)).Accepted?
  {
  }
}
