/** What osquery decodes from the registration call, against what requests can then reach. */
module Registration {
  import opened Bytes
  import opened Schema
  import W = Wire
  import WireProofs
  import R = Registry

  /**
   After any registrations, failed ones included: the registry that osquery reads off the wire lists an
   item exactly when a request by those two names reaches a plugin, and lists that plugin's routes.
   */
  lemma OsqueryKnowsWhatIsReachable(calls: seq<R.Call>, ads: W.Registry, info: W.ExtensionInfo, rest: Text,
      registry: Text, item: Text)
    requires R.Describes(R.After(calls), ads)
    requires Fits(W.REGISTER_ARGS, W.RegisterArgsValue(W.RegisterArgs(info, ads)))
    ensures var text := Enc(W.REGISTER_ARGS, W.RegisterArgsValue(W.RegisterArgs(info, ads)));
            var read := Dec(W.REGISTER_ARGS, text + rest, 0);
            && read.Ok? && read.pos == |text|
            && var seen := W.RegisterArgsFrom(read.value).registry;
               var found := R.Find(R.After(calls), registry, item);
               && (registry in seen && item in seen[registry] <==> found.Found?)
               && (found.Found? ==> seen[registry][item] == found.plugin.routes)
  {
    hide *;
    WireProofs.RegisterRoundTrip(W.RegisterArgs(info, ads), rest);
    R.AdvertisedAfterAnyCalls(calls, ads, registry, item);
  }
}
