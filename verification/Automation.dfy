/**
 One execution of a model task (accountautomation/service.go, channel_snapshot.go): discover the models of the
 accounts, publish the selected ones to the channels that lack them, then write prices for what was published.
 Catalogues, platform and task store answer arbitrarily.
 */
module Automation {
  import opened Common

  datatype ChannelTarget = ChannelTarget(id: string, version: string)

  datatype Channel = Channel(id: string, version: string, models: seq<string>)

  /** A model's ratios and billing terms; only the two ratios that gate a price are named. */
  datatype Terms = Terms(modelRatio: string, completionRatio: string, billing: string, others: seq<string>)

  datatype CatalogPrice = CatalogPrice(model: string, terms: Terms, syncError: string)

  datatype Price = Price(model: string, terms: Terms)

  datatype Request = Request(
    selected: seq<string>, channels: seq<ChannelTarget>, publishMissing: bool, priceEnabled: bool, dryRun: bool)

  /** The confirmed preview: its price plan and the digest stored with it, which is taken as injective. */
  datatype Preview = Preview(plan: Option<seq<Price>>, digest: Option<seq<Price>>)

  function ModelKey(fold: Fold, model: string): string {
    Lower(fold, Trim(model))
  }

  predicate Lists(fold: Fold, models: seq<string>, key: string) {
    exists i :: 0 <= i < |models| && ModelKey(fold, models[i]) == key
  }

  /** What validateSelection establishes. */
  ghost predicate ValidSelection(fold: Fold, selected: seq<string>) {
    && (forall m | m in selected :: Trim(m) == m && ModelKey(fold, m) != "")
    && (forall i, j | 0 <= i < j < |selected| :: ModelKey(fold, selected[i]) != ModelKey(fold, selected[j]))
  }

  lemma SameKeySameModel(fold: Fold, selected: seq<string>, a: string, b: string)
    requires ValidSelection(fold, selected) && a in selected && b in selected && Lower(fold, a) == Lower(fold, b)
    ensures a == b
  {
    assert ModelKey(fold, a) == ModelKey(fold, b);
  }

  // ---- What a task did ----

  datatype Event =
    | CatalogueRead(account: string, models: seq<string>)      // nothing is stored
    | CatalogueRefreshed(account: string, models: seq<string>) // the stored catalogue is replaced
    | CatalogueFailed(account: string)
    | ChannelsRead(channels: seq<Channel>)
    | ModelsSent(channel: Channel, models: seq<string>)
    | ModelsAnswered(channel: Channel, models: seq<string>, saved: seq<string>)
    | PricesSent(prices: seq<Price>)

  datatype History = Begin | Then(before: History, event: Event)

  predicate IsWrite(e: Event) {
    e.CatalogueRefreshed? || e.ModelsSent? || e.PricesSent?
  }

  predicate Discovered(fold: Fold, h: History, key: string) {
    h.Then?
    && (((h.event.CatalogueRead? || h.event.CatalogueRefreshed?) && Lists(fold, h.event.models, key))
        || Discovered(fold, h.before, key))
  }

  predicate Seen(h: History, channel: Channel) {
    h.Then? && ((h.event.ChannelsRead? && channel in h.event.channels) || Seen(h.before, channel))
  }

  /** Some account's catalogue was asked for. */
  predicate Asked(h: History) {
    h.Then? && (OfCatalogue(h.event) || Asked(h.before))
  }

  predicate OfCatalogue(e: Event) {
    e.CatalogueRead? || e.CatalogueRefreshed? || e.CatalogueFailed?
  }

  predicate SomeFailed(h: History) {
    h.Then? && (h.event.CatalogueFailed? || SomeFailed(h.before))
  }

  predicate ChannelsWereRead(h: History) {
    h.Then? && (h.event.ChannelsRead? || ChannelsWereRead(h.before))
  }

  /** Every catalogue asked for was read, or this is a preview, which goes on with what it has. */
  ghost predicate Complete(fold: Fold, h: History, request: Request) {
    Asked(h) && (SomeFailed(h) ==> request.dryRun && exists key :: key != "" && Discovered(fold, h, key))
  }

  predicate SentTo(h: History, id: string) {
    h.Then? && ((h.event.ModelsSent? && h.event.channel.id == id) || SentTo(h.before, id))
  }

  ghost predicate AllListed(fold: Fold, models: seq<string>, saved: seq<string>) {
    forall m | m in models :: Lists(fold, saved, ModelKey(fold, m))
  }

  /** The platform confirmed that a channel now offers all that this task sent to it, the model among it. */
  ghost predicate Added(fold: Fold, h: History, model: string) {
    h.Then?
    && ((h.event.ModelsAnswered? && model in h.event.models && AllListed(fold, h.event.models, h.event.saved))
        || Added(fold, h.before, model))
  }

  predicate Priced(h: History) {
    h.Then? && (h.event.PricesSent? || Priced(h.before))
  }

  /** The models a channel is sent: selected, discovered, and missing from it as it was read. */
  ghost predicate Publishable(fold: Fold, h: History, request: Request, channel: Channel, model: string) {
    && model in request.selected && Discovered(fold, h, ModelKey(fold, model))
    && !Lists(fold, channel.models, ModelKey(fold, model))
  }

  ghost predicate Admissible(fold: Fold, request: Request, preview: Preview, h: History, e: Event) {
    && (IsWrite(e) ==> !request.dryRun) && (OfCatalogue(e) ==> !ChannelsWereRead(h))
    && match e
    case CatalogueRead(_, _) => request.dryRun
    case ChannelsRead(_) => Complete(fold, h, request)
    case ModelsSent(channel, models) =>
      && request.publishMissing && models != [] && Seen(h, channel) && !SentTo(h, channel.id) && !Priced(h)
      && ChannelTarget(channel.id, channel.version) in request.channels
      && forall m :: m in models <==> Publishable(fold, h, request, channel, m)
    case ModelsAnswered(channel, models, _) => h.Then? && h.event == ModelsSent(channel, models)
    case PricesSent(prices) =>
      && request.priceEnabled && prices != [] && !Priced(h) && preview.plan.Some?
      && forall p | p in prices :: p in preview.plan.value && Added(fold, h, p.model)
    case _ => true
  }

  ghost predicate Disciplined(fold: Fold, request: Request, preview: Preview, h: History) {
    h.Then? ==>
      Disciplined(fold, request, preview, h.before) && Admissible(fold, request, preview, h.before, h.event)
  }

  // ---- What discipline means ----

  predicate IsPrefix(p: History, h: History) {
    p == h || (h.Then? && IsPrefix(p, h.before))
  }

  lemma {:induction false} EveryEventAdmissible(
      fold: Fold, request: Request, preview: Preview, h: History, p: History, e: Event)
    requires Disciplined(fold, request, preview, h) && IsPrefix(Then(p, e), h)
    ensures Disciplined(fold, request, preview, p) && Admissible(fold, request, preview, p, e)
  {
    if h != Then(p, e) { EveryEventAdmissible(fold, request, preview, h.before, p, e); }
  }

  /** A dry run performs no write. */
  lemma {:induction false} DryRunWritesNothing(fold: Fold, request: Request, preview: Preview, h: History, p: History, e: Event)
    requires Disciplined(fold, request, preview, h) && IsPrefix(Then(p, e), h) && request.dryRun
    ensures !IsWrite(e)
  {
    EveryEventAdmissible(fold, request, preview, h, p, e);
  }

  lemma {:induction false} CatalogueOf(fold: Fold, h: History, key: string) returns (p: History, e: Event, model: string)
    requires Discovered(fold, h, key)
    ensures IsPrefix(Then(p, e), h) && (e.CatalogueRead? || e.CatalogueRefreshed?)
    ensures model in e.models && ModelKey(fold, model) == key
  {
    if (h.event.CatalogueRead? || h.event.CatalogueRefreshed?) && Lists(fold, h.event.models, key) {
      p, e := h.before, h.event;
      var i :| 0 <= i < |e.models| && ModelKey(fold, e.models[i]) == key;
      model := e.models[i];
    } else {
      p, e, model := CatalogueOf(fold, h.before, key);
    }
  }

  lemma {:induction false} ReadOfChannel(h: History, channel: Channel) returns (p: History, channels: seq<Channel>)
    requires Seen(h, channel)
    ensures IsPrefix(Then(p, ChannelsRead(channels)), h) && channel in channels
  {
    if h.event.ChannelsRead? && channel in h.event.channels {
      p, channels := h.before, h.event.channels;
    } else {
      p, channels := ReadOfChannel(h.before, channel);
    }
  }

  /**
   Every model sent was selected and stood in a catalogue the task had read; the channel had been read without it, in
   the version the request names, and is sent models once.
   */
  lemma {:induction false} ModelsSentWereMissing(
      fold: Fold, request: Request, preview: Preview, h: History, q: History, channel: Channel, models: seq<string>,
      model: string)
    returns (p: History, e: Event, found: string, r: History, channels: seq<Channel>)
    requires Disciplined(fold, request, preview, h) && IsPrefix(Then(q, ModelsSent(channel, models)), h) && model in models
    ensures model in request.selected && ChannelTarget(channel.id, channel.version) in request.channels
    ensures IsPrefix(Then(p, e), q) && (e.CatalogueRead? || e.CatalogueRefreshed?)
    ensures found in e.models && ModelKey(fold, found) == ModelKey(fold, model)
    ensures IsPrefix(Then(r, ChannelsRead(channels)), q) && channel in channels
    ensures !Lists(fold, channel.models, ModelKey(fold, model)) && !SentTo(q, channel.id)
  {
    EveryEventAdmissible(fold, request, preview, h, q, ModelsSent(channel, models));
    assert Publishable(fold, q, request, channel, model);
    p, e, found := CatalogueOf(fold, q, ModelKey(fold, model));
    r, channels := ReadOfChannel(q, channel);
  }

  /** Once channels were read, no catalogue of a real run had failed. */
  lemma {:induction false} ReadAfterAll(fold: Fold, request: Request, preview: Preview, h: History)
    requires Disciplined(fold, request, preview, h) && ChannelsWereRead(h)
    ensures Asked(h) && (SomeFailed(h) ==> request.dryRun)
  {
    if !h.event.ChannelsRead? { ReadAfterAll(fold, request, preview, h.before); }
  }

  lemma {:induction false} SeenWasRead(h: History, channel: Channel)
    requires Seen(h, channel)
    ensures ChannelsWereRead(h)
  {
    if !h.event.ChannelsRead? { SeenWasRead(h.before, channel); }
  }

  /** Nothing is published or priced, then or later, by a task that failed to read a catalogue. */
  lemma FailureWritesNothing(fold: Fold, request: Request, preview: Preview, h: History, p: History, e: Event)
    requires Disciplined(fold, request, preview, h) && IsPrefix(Then(p, e), h) && (e.ModelsSent? || e.PricesSent?)
    ensures !SomeFailed(h)
  {
    EveryEventAdmissible(fold, request, preview, h, p, e);
    if e.ModelsSent? {
      SeenWasRead(p, e.channel);
    } else {
      var q, channel, models, saved := AdditionOf(fold, request, preview, p, e.prices[0].model);
      var sent := Then(q, ModelsSent(channel, models));
      EveryEventAdmissible(fold, request, preview, p, sent, ModelsAnswered(channel, models, saved));
      EveryEventAdmissible(fold, request, preview, sent, q, ModelsSent(channel, models));
      SeenWasRead(q, channel);
      assert ChannelsWereRead(Then(sent, ModelsAnswered(channel, models, saved)));
      ReadLasts(Then(sent, ModelsAnswered(channel, models, saved)), p);
    }
    ReadLasts(Then(p, e), h);
    ReadAfterAll(fold, request, preview, h);
  }

  lemma {:induction false} ReadLasts(p: History, h: History)
    requires IsPrefix(p, h) && ChannelsWereRead(p)
    ensures ChannelsWereRead(h)
  {
    if p != h { ReadLasts(p, h.before); }
  }

  lemma {:induction false} AdditionOf(fold: Fold, request: Request, preview: Preview, h: History, model: string)
    returns (p: History, channel: Channel, models: seq<string>, saved: seq<string>)
    requires Disciplined(fold, request, preview, h) && Added(fold, h, model)
    ensures IsPrefix(Then(Then(p, ModelsSent(channel, models)), ModelsAnswered(channel, models, saved)), h)
    ensures model in models && AllListed(fold, models, saved)
  {
    if h.event.ModelsAnswered? && model in h.event.models && AllListed(fold, h.event.models, h.event.saved) {
      channel, models, saved := h.event.channel, h.event.models, h.event.saved;
      p := h.before.before;
    } else {
      p, channel, models, saved := AdditionOf(fold, request, preview, h.before, model);
    }
  }

  /**
   Every price written equals the confirmed preview's price for a model which this task itself added: the model was
   selected and discovered, a channel in its requested version lacked it, and the platform then listed it there.
   */
  lemma {:induction false} PricesAreOfAddedModels(
      fold: Fold, request: Request, preview: Preview, h: History, q: History, prices: seq<Price>, price: Price)
    returns (p: History, channel: Channel, models: seq<string>, saved: seq<string>)
    requires Disciplined(fold, request, preview, h) && IsPrefix(Then(q, PricesSent(prices)), h) && price in prices
    ensures preview.plan.Some? && price in preview.plan.value
    ensures IsPrefix(Then(Then(p, ModelsSent(channel, models)), ModelsAnswered(channel, models, saved)), q)
    ensures price.model in models && AllListed(fold, models, saved)
    ensures Publishable(fold, p, request, channel, price.model)
    ensures ChannelTarget(channel.id, channel.version) in request.channels
  {
    EveryEventAdmissible(fold, request, preview, h, q, PricesSent(prices));
    p, channel, models, saved := AdditionOf(fold, request, preview, q, price.model);
    var sent := Then(p, ModelsSent(channel, models));
    EveryEventAdmissible(fold, request, preview, q, sent, ModelsAnswered(channel, models, saved));
    EveryEventAdmissible(fold, request, preview, sent, p, ModelsSent(channel, models));
  }

  /**
   What a finished task leaves of the confirmed prices: the last thing it did was to write exactly the preview's prices
   of the models it added, or there was no such price and none was written.
   */
  ghost predicate PricesSettled(fold: Fold, preview: Preview, h: History) {
    || (h.Then? && h.event.PricesSent? && preview.plan.Some?
        && forall p :: p in h.event.prices <==> p in preview.plan.value && Added(fold, h.before, p.model))
    || (!Priced(h) && forall p | preview.plan.Some? && p in preview.plan.value :: !Added(fold, h, p.model))
  }

  // ---- Helpers of a model task ----

  function VersionOf(targets: seq<ChannelTarget>, id: string): string {
    if targets == [] then ""
    else if targets[|targets| - 1].id == id then targets[|targets| - 1].version
    else VersionOf(targets[..|targets| - 1], id)
  }

  lemma {:induction false} VersionOfTarget(targets: seq<ChannelTarget>, id: string)
    ensures VersionOf(targets, id) != "" ==> ChannelTarget(id, VersionOf(targets, id)) in targets
  {
    if targets != [] { VersionOfTarget(targets[..|targets| - 1], id); }
  }

  /** A channel version is a SHA-256 in hexadecimal. */
  predicate ValidVersion(version: string): (valid: bool)
    ensures valid ==> version != ""
  {
    |version| == 64 && forall c | c in version :: '0' <= c <= '9' || 'a' <= c <= 'f' || 'A' <= c <= 'F'
  }

  ghost predicate DistinctChannels(channels: seq<Channel>) {
    forall i, j | 0 <= i < j < |channels| :: channels[i].id != channels[j].id
  }

  ghost predicate DistinctTargets(targets: seq<ChannelTarget>) {
    forall i, j | 0 <= i < j < |targets| :: targets[i].id != targets[j].id
  }

  predicate Targeted(targets: seq<ChannelTarget>, id: string) {
    exists i :: 0 <= i < |targets| && targets[i].id == id
  }

  /** The answer is the requested channels, each once, in some order. */
  ghost predicate MatchesTargets(targets: seq<ChannelTarget>, channels: seq<Channel>) {
    && |channels| == |targets| && DistinctChannels(channels)
    && forall c | c in channels :: Targeted(targets, c.id) && ValidVersion(c.version)
  }

  method UnansweredTargets(targets: seq<ChannelTarget>) returns (known: map<string, string>)
    ensures forall id :: id in known <==> Targeted(targets, id)
    ensures forall id | id in known :: known[id] == ""
  {
    known := map[];
    for i := 0 to |targets|
      invariant forall id :: id in known <==> exists k :: 0 <= k < i && targets[k].id == id
      invariant forall id | id in known :: known[id] == ""
    {
      known := known[targets[i].id := ""];
    }
  }

  /** The versions answered by the first k channels; a target not answered yet has none. */
  ghost predicate Table(targets: seq<ChannelTarget>, channels: seq<Channel>, k: nat, known: map<string, string>) {
    && k <= |channels| && (forall id :: id in known <==> Targeted(targets, id))
    && (forall j | 0 <= j < k :: channels[j].id in known && known[channels[j].id] == channels[j].version)
    && (forall j | 0 <= j < k :: ValidVersion(channels[j].version))
    && (forall i, j | 0 <= i < j < k :: channels[i].id != channels[j].id)
    && (forall id | id in known && known[id] != "" :: exists j :: 0 <= j < k && channels[j].id == id)
  }

  lemma TableGrows(targets: seq<ChannelTarget>, channels: seq<Channel>, k: nat, known: map<string, string>)
    requires k < |channels| && Table(targets, channels, k, known)
    requires channels[k].id in known && known[channels[k].id] == "" && ValidVersion(channels[k].version)
    ensures Table(targets, channels, k + 1, known[channels[k].id := channels[k].version])
  {
    hide ValidVersion, Targeted;
  }

  /** A channel that is no target, comes twice or has no valid version spoils the whole answer. */
  lemma ChannelRefused(targets: seq<ChannelTarget>, channels: seq<Channel>, k: nat, known: map<string, string>)
    requires k < |channels| && Table(targets, channels, k, known)
    requires channels[k].id !in known || known[channels[k].id] != "" || !ValidVersion(channels[k].version)
    ensures !MatchesTargets(targets, channels)
  {
    hide ValidVersion;
    assert channels[k] in channels;
  }

  /** The version answered for every target; nothing if the answer is not exactly the targets. */
  method AnsweredVersions(targets: seq<ChannelTarget>, channels: seq<Channel>)
    returns (versions: Option<map<string, string>>)
    requires DistinctTargets(targets)
    ensures versions.Some? <==> MatchesTargets(targets, channels)
    ensures versions.Some? ==> Table(targets, channels, |channels|, versions.value)
  {
    if |channels| != |targets| { return None; }
    var known := UnansweredTargets(targets);
    for k := 0 to |channels|
      invariant Table(targets, channels, k, known)
    {
      hide Table, MatchesTargets, ValidVersion;
      var channel := channels[k];
      if channel.id !in known || known[channel.id] != "" || !ValidVersion(channel.version) {
        ChannelRefused(targets, channels, k, known);
        return None;
      }
      TableGrows(targets, channels, k, known);
      known := known[channel.id := channel.version];
    }
    versions := Some(known);
  }

  /** channelTargets: refreshed versions, in the order of the selection. */
  method RefreshTargets(targets: seq<ChannelTarget>, channels: seq<Channel>)
    returns (refreshed: Option<seq<ChannelTarget>>)
    requires DistinctTargets(targets)
    ensures refreshed.Some? <==> MatchesTargets(targets, channels)
    ensures refreshed.Some? ==> |refreshed.value| == |targets|
    ensures refreshed.Some? ==> forall i | 0 <= i < |targets| ::
      refreshed.value[i].id == targets[i].id && Answers(channels, refreshed.value[i])
  {
    var versions := AnsweredVersions(targets, channels);
    if versions.None? { return None; }
    EveryTargetAnswered(targets, channels);
    var list: seq<ChannelTarget> := [];
    for i := 0 to |targets|
      invariant |list| == i
      invariant forall j | 0 <= j < i :: list[j].id == targets[j].id && Answers(channels, list[j])
    {
      assert targets[i] in targets && Targeted(targets, targets[i].id);
      var next := ChannelTarget(targets[i].id, versions.value[targets[i].id]);
      assert Answers(channels, next) by {
        assert Answered(channels, targets[i].id);
        var j :| 0 <= j < |channels| && channels[j].id == targets[i].id;
        assert channels[j] in channels;
      }
      list := list + [next];
    }
    refreshed := Some(list);
  }

  predicate Answered(channels: seq<Channel>, id: string) {
    exists j :: 0 <= j < |channels| && channels[j].id == id
  }

  ghost predicate Answers(channels: seq<Channel>, target: ChannelTarget) {
    exists j :: 0 <= j < |channels| && channels[j].id == target.id && channels[j].version == target.version
  }

  /** As many distinct requested channels as there are targets leave no target out. */
  lemma EveryTargetAnswered(targets: seq<ChannelTarget>, channels: seq<Channel>)
    requires MatchesTargets(targets, channels)
    ensures forall t | t in targets :: Answered(channels, t.id)
  {
    var wanted := seq(|targets|, i requires 0 <= i < |targets| => targets[i].id);
    var given := seq(|channels|, j requires 0 <= j < |channels| => channels[j].id);
    forall g | g in given ensures g in wanted {
      var j :| 0 <= j < |given| && given[j] == g;
      assert channels[j] in channels;
      var i :| 0 <= i < |targets| && targets[i].id == g;
      assert wanted[i] == g;
    }
    DistinctMembersFit(given, wanted);
    forall t | t in targets ensures Answered(channels, t.id) {
      var i :| 0 <= i < |targets| && targets[i] == t;
      assert wanted[i] in wanted;
      var j :| 0 <= j < |given| && given[j] == wanted[i];
      assert channels[j].id == t.id;
    }
  }

  function Missing(fold: Fold, models: seq<string>, present: seq<string>): (missing: seq<string>)
    ensures forall m :: m in missing <==> m in models && !Lists(fold, present, ModelKey(fold, m))
  {
    if models == [] then []
    else
      var last := models[|models| - 1];
      var earlier := Missing(fold, models[..|models| - 1], present);
      assert forall m :: m in models <==> m in models[..|models| - 1] || m == last;
      if Lists(fold, present, ModelKey(fold, last)) then earlier else earlier + [last]
  }

  /** filterPrices compares lower-cased names without trimming them. */
  function Filtered(fold: Fold, prices: seq<Price>, models: seq<string>): (filtered: seq<Price>)
    ensures forall p :: p in filtered <==>
      p in prices && exists m :: m in models && Lower(fold, m) == Lower(fold, p.model)
  {
    if prices == [] then []
    else
      var last := prices[|prices| - 1];
      var earlier := Filtered(fold, prices[..|prices| - 1], models);
      assert forall p :: p in prices <==> p in prices[..|prices| - 1] || p == last;
      if exists m :: m in models && Lower(fold, m) == Lower(fold, last.model) then earlier + [last] else earlier
  }

  method FilterPrices(fold: Fold, prices: seq<Price>, models: seq<string>) returns (filtered: seq<Price>)
    ensures filtered == Filtered(fold, prices, models)
  {
    var allowed := {};
    for i := 0 to |models|
      invariant forall key :: key in allowed <==> exists k :: 0 <= k < i && Lower(fold, models[k]) == key
    {
      allowed := allowed + {Lower(fold, models[i])};
    }
    assert forall key :: key in allowed <==> exists m :: m in models && Lower(fold, m) == key;
    filtered := [];
    for i := 0 to |prices|
      invariant filtered == Filtered(fold, prices[..i], models)
    {
      assert prices[..i + 1][..i] == prices[..i];
      if Lower(fold, prices[i].model) in allowed { filtered := filtered + [prices[i]]; }
    }
    assert prices[..|prices|] == prices;
  }

  /** The catalogue entry of a model; of several the last one counts. */
  function EntryOf(fold: Fold, catalog: seq<CatalogPrice>, key: string): Option<CatalogPrice> {
    if catalog == [] then None
    else if ModelKey(fold, catalog[|catalog| - 1].model) == key then Some(catalog[|catalog| - 1])
    else EntryOf(fold, catalog[..|catalog| - 1], key)
  }

  predicate Usable(item: CatalogPrice) {
    Trim(item.terms.modelRatio) != "" && Trim(item.terms.completionRatio) != "" && item.syncError == ""
  }

  /** The plan: one price, under the selected name, for each model with a usable entry. */
  method BuildPriceInputs(fold: Fold, models: seq<string>, catalog: seq<CatalogPrice>) returns (plan: seq<Price>)
    ensures forall p :: p in plan <==>
      && p.model in models && EntryOf(fold, catalog, ModelKey(fold, p.model)).Some?
      && Usable(EntryOf(fold, catalog, ModelKey(fold, p.model)).value)
      && p.terms == EntryOf(fold, catalog, ModelKey(fold, p.model)).value.terms
    ensures |plan| <= |models|
  {
    var byModel: map<string, CatalogPrice> := map[];
    for i := 0 to |catalog|
      invariant forall key ::
        EntryOf(fold, catalog[..i], key) == if key in byModel then Some(byModel[key]) else None
    {
      byModel := byModel[ModelKey(fold, catalog[i].model) := catalog[i]];
      assert catalog[..i + 1][..i] == catalog[..i];
    }
    assert catalog[..|catalog|] == catalog;
    plan := [];
    for i := 0 to |models|
      invariant |plan| <= i
      invariant forall p :: p in plan <==>
        && p.model in models[..i] && ModelKey(fold, p.model) in byModel && Usable(byModel[ModelKey(fold, p.model)])
        && p.terms == byModel[ModelKey(fold, p.model)].terms
    {
      var key := ModelKey(fold, models[i]);
      assert models[..i + 1] == models[..i] + [models[i]];
      if key !in byModel || !Usable(byModel[key]) { continue; }
      plan := plan + [Price(models[i], byModel[key].terms)];
    }
    assert models[..|models|] == models;
  }

  /** matchesPreviewPrices */
  predicate MatchesPreview(fold: Fold, preview: Preview, current: seq<Price>, models: seq<string>) {
    preview.plan.Some? && preview.digest == preview.plan && Filtered(fold, preview.plan.value, models) == current
  }

  // ---- The task ----

  class Task {
    const fold: Fold
    const request: Request
    const preview: Preview
    var history: History
    var modelSet: set<string>       // keys of the discovered models
    var verified: set<string>       // keys of the models confirmed in a channel

    ghost predicate Valid()
      reads this
    {
      && ValidSelection(fold, request.selected) && DistinctTargets(request.channels)
      && Disciplined(fold, request, preview, history)
    }

    constructor (fold: Fold, request: Request, preview: Preview)
      requires ValidSelection(fold, request.selected) && DistinctTargets(request.channels)
      ensures Valid() && history == Begin && verified == {} && modelSet == {}
      ensures this.fold == fold && this.request == request && this.preview == preview
    {
      this.fold, this.request, this.preview := fold, request, preview;
      history, modelSet, verified := Begin, {}, {};
    }

    /** A save of progress, a lookup, or a check for cancellation. */
    method Succeeds() returns (b: bool) {
      b := *;
    }

    /** Reads every account's catalogue; a real run replaces the stored catalogues with what it read. */
    method Discover(accounts: seq<string>) returns (ok: bool)
      requires Valid() && history == Begin && modelSet == {}
      modifies this`history, this`modelSet
      ensures Valid() && !Priced(history) && (forall id :: !SentTo(history, id)) && forall m :: !Added(fold, history, m)
      ensures forall key :: key != "" ==> (key in modelSet <==> Discovered(fold, history, key))
      ensures !ChannelsWereRead(history) && (ok ==> Complete(fold, history, request))
    {
      hide Disciplined;
      var failed, listed := 0, 0;
      for k := 0 to |accounts|
        invariant Valid() && !Priced(history) && (forall id :: !SentTo(history, id)) && forall m :: !Added(fold, history, m)
        invariant forall key :: key != "" ==> (key in modelSet <==> Discovered(fold, history, key))
        invariant "" !in modelSet && !ChannelsWereRead(history)
        invariant (listed > 0 <==> Asked(history)) && (failed > 0 <==> SomeFailed(history))
      {
        var cancelled := Succeeds();
        if cancelled { break; }
        var excluded := Succeeds();
        if excluded { continue; }
        listed := listed + 1;
        var answered := ReadCatalogue(accounts[k]);
        if !answered { failed := failed + 1; }
        var saved := Succeeds();
        if !saved { return false; }
      }
      var cancelled := Succeeds();
      if cancelled || listed == 0 || (modelSet == {} && failed > 0) { return false; }
      assert modelSet != {} ==> exists key :: key in modelSet && Discovered(fold, history, key);
      return failed == 0 || request.dryRun;
    }

    /** A preview reads the catalogue only; a real run has the stored one replaced by what it reads. */
    method ReadCatalogue(account: string) returns (answered: bool)
      requires Valid() && !ChannelsWereRead(history) && "" !in modelSet
      requires forall key :: key != "" ==> (key in modelSet <==> Discovered(fold, history, key))
      modifies this`history, this`modelSet
      ensures Valid() && history.Then? && history.before == old(history) && "" !in modelSet
      ensures OfCatalogue(history.event) && history.event.account == account
      ensures if !answered then history.event.CatalogueFailed? else
        if request.dryRun then history.event.CatalogueRead? else history.event.CatalogueRefreshed?
      ensures forall key :: key != "" ==> (key in modelSet <==> Discovered(fold, history, key))
      ensures forall m :: Added(fold, history, m) <==> Added(fold, old(history), m)
      ensures forall id :: SentTo(history, id) <==> SentTo(old(history), id)
    {
      answered := *;
      var models: seq<string> := *;
      if !answered {
        history := Then(history, CatalogueFailed(account));
      } else {
        if request.dryRun {
          history := Then(history, CatalogueRead(account, models));
        } else {
          history := Then(history, CatalogueRefreshed(account, models));
        }
        AddKeys(models);
        assert forall key :: Discovered(fold, history, key) <==>
          Lists(fold, models, key) || Discovered(fold, history.before, key);
      }
    }

    method AddKeys(models: seq<string>)
      modifies this`modelSet
      requires "" !in modelSet
      ensures "" !in modelSet
      ensures forall key :: key != "" ==> (key in modelSet <==> key in old(modelSet) || Lists(fold, models, key))
    {
      for i := 0 to |models|
        invariant "" !in modelSet
        invariant forall key :: key != "" ==>
          (key in modelSet <==> key in old(modelSet) || exists j :: 0 <= j < i && ModelKey(fold, models[j]) == key)
      {
        if Trim(models[i]) != "" { modelSet := modelSet + {ModelKey(fold, models[i])}; }
        else { assert ModelKey(fold, models[i]) == ""; }
      }
    }

    ghost predicate SelectedDiscovered(selected: seq<string>)
      reads this
    {
      forall m :: m in selected <==>
        request.publishMissing && m in request.selected && Discovered(fold, history, ModelKey(fold, m))
    }

    /** The selected models that some catalogue offers; nothing unless publishing was asked for. */
    method SelectDiscovered() returns (selected: seq<string>)
      requires Valid() && forall key :: key != "" ==> (key in modelSet <==> Discovered(fold, history, key))
      ensures SelectedDiscovered(selected)
    {
      selected := [];
      if !request.publishMissing { return; }
      for i := 0 to |request.selected|
        invariant forall m :: m in selected <==>
          m in request.selected[..i] && Discovered(fold, history, ModelKey(fold, m))
      {
        assert request.selected[..i + 1] == request.selected[..i] + [request.selected[i]];
        assert request.selected[i] in request.selected;
        if ModelKey(fold, request.selected[i]) in modelSet { selected := selected + [request.selected[i]]; }
      }
      assert request.selected[..|request.selected|] == request.selected;
    }

    /** Some channel, in its requested version, does not list the key. */
    predicate Lacked(channels: seq<Channel>, key: string) {
      exists i :: 0 <= i < |channels|
        && VersionOf(request.channels, channels[i].id) == channels[i].version && !Lists(fold, channels[i].models, key)
    }

    /** The models some channel lacks, in the order of the selection: what prices are planned for. */
    method PlanModels(selected: seq<string>, channels: seq<Channel>) returns (planned: seq<string>)
      ensures forall m :: m in planned <==> m in selected && Lacked(channels, ModelKey(fold, m))
    {
      var wanted := {};
      for i := 0 to |channels|
        invariant forall m | m in selected :: ModelKey(fold, m) in wanted <==> Lacked(channels[..i], ModelKey(fold, m))
      {
        ghost var before := wanted;
        assert channels[..i + 1] == channels[..i] + [channels[i]];
        var missing := [];
        if VersionOf(request.channels, channels[i].id) == channels[i].version {
          missing := Missing(fold, selected, channels[i].models);
        }
        for k := 0 to |missing|
          invariant forall key :: key in wanted <==>
            key in before || exists l :: 0 <= l < k && ModelKey(fold, missing[l]) == key
        {
          wanted := wanted + {ModelKey(fold, missing[k])};
        }
        forall m | m in selected
          ensures ModelKey(fold, m) in wanted <==> Lacked(channels[..i + 1], ModelKey(fold, m))
        {
          LackedOneMore(channels[..i], channels[i], ModelKey(fold, m));
        }
      }
      assert channels[..|channels|] == channels;
      planned := [];
      for i := 0 to |selected|
        invariant forall m :: m in planned <==> m in selected[..i] && ModelKey(fold, m) in wanted
      {
        assert selected[..i + 1] == selected[..i] + [selected[i]];
        if ModelKey(fold, selected[i]) in wanted { planned := planned + [selected[i]]; }
      }
      assert selected[..|selected|] == selected;
    }

    lemma LackedOneMore(channels: seq<Channel>, channel: Channel, key: string)
      ensures Lacked(channels + [channel], key) <==>
        (Lacked(channels, key)
         || (VersionOf(request.channels, channel.id) == channel.version && !Lists(fold, channel.models, key)))
    {
      assert (channels + [channel])[|channels|] == channel;
      if Lacked(channels, key) {
        var i :| 0 <= i < |channels|
          && VersionOf(request.channels, channels[i].id) == channels[i].version && !Lists(fold, channels[i].models, key);
        assert (channels + [channel])[i] == channels[i];
      }
    }

    /** The models verified so far are those this task added, every one of them selected and lacked by some channel. */
    ghost predicate VerifiedAdded(selected: seq<string>, channels: seq<Channel>)
      reads this
    {
      && (forall key :: key in verified <==> exists m :: m in selected && ModelKey(fold, m) == key && Added(fold, history, m))
      && forall m | Added(fold, history, m) :: m in selected && Lacked(channels, ModelKey(fold, m))
    }

    /** Sends one channel what it lacks and reports whether the answer lists all of it. */
    method Publish(channel: Channel, missing: seq<string>) returns (complete: bool)
      requires Valid() && Admissible(fold, request, preview, history, ModelsSent(channel, missing))
      modifies this`history
      ensures Valid() && !Priced(history)
      ensures forall m :: Added(fold, history, m) <==> Added(fold, old(history), m) || (complete && m in missing)
      ensures forall c :: Seen(history, c) <==> Seen(old(history), c)
      ensures forall key :: Discovered(fold, history, key) <==> Discovered(fold, old(history), key)
      ensures forall id :: SentTo(history, id) <==> SentTo(old(history), id) || id == channel.id
    {
      history := Then(history, ModelsSent(channel, missing));
      var answered: bool := *;
      if !answered { return false; }
      var saved: seq<string> := *;
      history := Then(history, ModelsAnswered(channel, missing, saved));
      complete := Missing(fold, missing, saved) == [];
      assert complete <==> AllListed(fold, missing, saved) by {
        if !complete { assert Missing(fold, missing, saved)[0] in Missing(fold, missing, saved); }
        forall m | m in missing && complete ensures Lists(fold, saved, ModelKey(fold, m)) {
          assert m !in Missing(fold, missing, saved);
        }
      }
    }

    /** A channel in its requested version that lacks a selected model was sent what it lacks. */
    ghost predicate Served(channel: Channel, selected: seq<string>)
      reads this
    {
      && !request.dryRun && VersionOf(request.channels, channel.id) == channel.version
      && Missing(fold, selected, channel.models) != []
      ==> SentTo(history, channel.id)
    }

    /** One channel: skipped when its version changed, otherwise sent what it lacks. */
    method PublishTo(channel: Channel, selected: seq<string>, ghost channels: seq<Channel>) returns (proceed: bool)
      requires Valid() && Seen(history, channel) && !SentTo(history, channel.id) && !Priced(history)
      requires ValidVersion(channel.version) && SelectedDiscovered(selected) && VerifiedAdded(selected, channels)
      requires channel in channels
      modifies this`history, this`verified
      ensures Valid() && !Priced(history) && SelectedDiscovered(selected)
      ensures proceed ==> VerifiedAdded(selected, channels)
      ensures forall c :: Seen(history, c) <==> Seen(old(history), c)
      ensures forall id | SentTo(history, id) :: SentTo(old(history), id) || id == channel.id
      ensures forall id | SentTo(old(history), id) :: SentTo(history, id)
      ensures proceed ==> Served(channel, selected)
    {
      var saved := Succeeds();
      if VersionOf(request.channels, channel.id) != channel.version { return saved; }
      VersionOfTarget(request.channels, channel.id);
      var missing := Missing(fold, selected, channel.models);
      if missing == [] || !request.publishMissing || request.dryRun { return saved; }
      if !saved { return false; }
      assert forall m :: m in missing <==> Publishable(fold, history, request, channel, m);
      var complete := Publish(channel, missing);
      hide Disciplined, Admissible, Publishable;
      if complete {
        LackedBy(channels, channel, missing);
        MarkVerified(missing);
      }
      proceed := Succeeds();
    }

    lemma LackedBy(channels: seq<Channel>, channel: Channel, missing: seq<string>)
      requires channel in channels && VersionOf(request.channels, channel.id) == channel.version
      requires forall m | m in missing :: !Lists(fold, channel.models, ModelKey(fold, m))
      ensures forall m | m in missing :: Lacked(channels, ModelKey(fold, m))
    {
      var i :| 0 <= i < |channels| && channels[i] == channel;
    }

    method MarkVerified(missing: seq<string>)
      modifies this`verified
      ensures forall key :: key in verified <==>
        key in old(verified) || exists m :: m in missing && ModelKey(fold, m) == key
    {
      for i := 0 to |missing|
        invariant forall key :: key in verified <==>
          key in old(verified) || exists k :: 0 <= k < i && ModelKey(fold, missing[k]) == key
      {
        verified := verified + {ModelKey(fold, missing[i])};
      }
    }

    /** The channels in the order the platform answered them. */
    method PublishAll(channels: seq<Channel>, selected: seq<string>) returns (proceed: bool, complete: bool)
      requires Valid() && !Priced(history) && SelectedDiscovered(selected) && VerifiedAdded(selected, channels)
      requires MatchesTargets(request.channels, channels)
      requires forall c | c in channels :: Seen(history, c) && !SentTo(history, c.id)
      modifies this`history, this`verified
      ensures Valid() && !Priced(history) && SelectedDiscovered(selected)
      ensures proceed ==> VerifiedAdded(selected, channels)
      ensures forall c :: Seen(history, c) <==> Seen(old(history), c)
      ensures complete ==> proceed && forall c | c in channels :: Served(c, selected)
    {
      hide Disciplined;
      complete := false;
      for i := 0 to |channels|
        invariant Valid() && !Priced(history) && SelectedDiscovered(selected) && VerifiedAdded(selected, channels)
        invariant forall c :: Seen(history, c) <==> Seen(old(history), c)
        invariant forall k | i <= k < |channels| :: !SentTo(history, channels[k].id)
        invariant forall k | 0 <= k < i :: Served(channels[k], selected)
      {
        var cancelled := Succeeds();
        if cancelled { return true, false; }
        assert channels[i] in channels;
        proceed := PublishTo(channels[i], selected, channels);
        if !proceed { return; }
      }
      proceed, complete := true, true;
    }

    /** Prices for what was verified, out of the plan that matches the confirmed preview. */
    method WritePrices(plan: seq<Price>, planned: seq<string>, selected: seq<string>, ghost channels: seq<Channel>)
      returns (ok: bool)
      requires Valid() && !Priced(history) && SelectedDiscovered(selected) && VerifiedAdded(selected, channels)
      requires request.priceEnabled
      requires !request.dryRun ==> MatchesPreview(fold, preview, plan, planned)
      requires forall p | p in plan :: p.model in selected
      modifies this`history
      ensures Valid()
      ensures forall id :: SentTo(history, id) <==> SentTo(old(history), id)
      ensures history == old(history) || (history.Then? && history.before == old(history) && history.event.PricesSent?)
      ensures ok && !request.dryRun ==>
        if exists p :: p in plan && Added(fold, old(history), p.model)
        then history.Then? && history.before == old(history) && history.event.PricesSent?
          && forall p :: p in history.event.prices <==> p in plan && Added(fold, old(history), p.model)
        else history == old(history)
    {
      hide Disciplined;
      var saved := Succeeds();
      if !saved || request.dryRun { return saved; }
      var models := [];
      for i := 0 to |selected|
        invariant forall m :: m in models <==> m in selected[..i] && ModelKey(fold, m) in verified
      {
        assert selected[..i + 1] == selected[..i] + [selected[i]];
        if ModelKey(fold, selected[i]) in verified { models := models + [selected[i]]; }
      }
      assert selected[..|selected|] == selected;
      var prices := FilterPrices(fold, plan, models);
      PricesOfAdded(plan, selected, channels, models, prices);
      if prices == [] { return true; }
      saved := Succeeds();
      if !saved { return false; }
      assert prices[0] in prices;
      assert forall p | p in prices :: p in Filtered(fold, preview.plan.value, planned);
      SendPrices(prices);
      ok := true;
    }

    method SendPrices(prices: seq<Price>)
      requires Valid() && !request.dryRun && request.priceEnabled && prices != [] && !Priced(history)
      requires preview.plan.Some? && forall p | p in prices :: p in preview.plan.value && Added(fold, history, p.model)
      modifies this`history
      ensures Valid() && history == Then(old(history), PricesSent(prices))
    {
      history := Then(history, PricesSent(prices));
    }

    /** Filtering by the verified models leaves the prices of the models added. */
    lemma PricesOfAdded(
        plan: seq<Price>, selected: seq<string>, channels: seq<Channel>, models: seq<string>, prices: seq<Price>)
      requires Valid() && SelectedDiscovered(selected) && VerifiedAdded(selected, channels)
      requires prices == Filtered(fold, plan, models)
      requires forall m :: m in models <==> m in selected && ModelKey(fold, m) in verified
      requires forall p | p in plan :: p.model in selected
      ensures forall p :: p in prices <==> p in plan && Added(fold, history, p.model)
    {
      hide Disciplined;
      forall p ensures p in prices <==> p in plan && Added(fold, history, p.model) {
        if p in plan && Added(fold, history, p.model) { assert p.model in models; }
        if p in prices {
          var m :| m in models && Lower(fold, m) == Lower(fold, p.model);
          SameKeySameModel(fold, request.selected, m, p.model);
          var added :| added in selected && ModelKey(fold, added) == ModelKey(fold, m) && Added(fold, history, added);
          SameKeySameModel(fold, request.selected, added, m);
        }
      }
    }

    /**
     The whole task, from the account catalogues to the prices. A completed task sent every channel it read, in its
     requested version, the selected models the channel lacked, and wrote the confirmed prices of what was added.
     */
    method Execute(accounts: seq<string>) returns (completed: bool, channels: seq<Channel>)
      requires Valid() && history == Begin && modelSet == {} && verified == {}
      modifies this
      ensures Valid()
      ensures completed && !request.dryRun ==> MatchesTargets(request.channels, channels) && AllServed(channels)
      ensures completed && !request.dryRun && request.priceEnabled ==> PricesSettled(fold, preview, history)
    {
      channels, completed := [], false;
      var admitted := Succeeds();
      if !admitted { return; }
      var discovered := Discover(accounts);
      if !discovered { return; }
      var selected := SelectDiscovered();
      var answered: bool := *;
      if !answered { return; }
      channels := *;
      var refreshed := RefreshTargets(request.channels, channels);
      if refreshed.None? { return; }
      history := Then(history, ChannelsRead(channels));
      assert VerifiedAdded(selected, channels) by {
        assert forall m :: Added(fold, history, m) <==> Added(fold, history.before, m);
      }
      var planned := PlanModels(selected, channels);
      var plan := [];
      if request.priceEnabled && planned != [] {
        var priced: bool := *;
        var catalog: seq<CatalogPrice> := *;
        if !priced { return; }
        plan := BuildPriceInputs(fold, planned, catalog);
        if !request.dryRun && !MatchesPreview(fold, preview, plan, planned) { return; }
      }
      var saved := Succeeds();
      if !saved { return; }
      completed := Finish(plan, planned, selected, channels);
    }

    /** Publishing and then pricing, once the plan was confirmed. */
    method Finish(plan: seq<Price>, planned: seq<string>, selected: seq<string>, channels: seq<Channel>)
      returns (completed: bool)
      requires Valid() && !Priced(history) && SelectedDiscovered(selected) && VerifiedAdded(selected, channels)
      requires MatchesTargets(request.channels, channels)
      requires forall c | c in channels :: Seen(history, c) && !SentTo(history, c.id)
      requires forall m :: m in planned <==> m in selected && Lacked(channels, ModelKey(fold, m))
      requires (request.priceEnabled && planned != [] && !request.dryRun) ==> MatchesPreview(fold, preview, plan, planned)
      requires forall p | p in plan :: p.model in selected
      modifies this`history, this`verified
      ensures Valid() && (completed && !request.dryRun ==> AllServed(channels))
      ensures completed && !request.dryRun && request.priceEnabled ==> PricesSettled(fold, preview, history)
    {
      var proceed, complete := PublishAll(channels, selected);
      if !proceed { return false; }
      ServedMeansSent(channels, selected, complete);
      completed := complete;
      if request.priceEnabled && planned != [] && complete {
        if !request.dryRun { PlanCovers(plan, planned, selected, channels); }
        ghost var published := history;
        completed := WritePrices(plan, planned, selected, channels);
        ServedStays(channels, published);
      }
    }

    lemma ServedStays(channels: seq<Channel>, earlier: History)
      requires forall id :: SentTo(history, id) <==> SentTo(earlier, id)
      requires history == earlier || (history.Then? && history.before == earlier && history.event.PricesSent?)
      ensures forall c, m :: Publishable(fold, history, request, c, m) <==> Publishable(fold, earlier, request, c, m)
    {
    }

    /** What was added was planned, so the plan holds its confirmed prices. */
    lemma PlanCovers(plan: seq<Price>, planned: seq<string>, selected: seq<string>, channels: seq<Channel>)
      requires VerifiedAdded(selected, channels) && MatchesPreview(fold, preview, plan, planned)
      requires forall m :: m in planned <==> m in selected && Lacked(channels, ModelKey(fold, m))
      ensures forall p: Price | Added(fold, history, p.model) :: p in preview.plan.value <==> p in plan
    {
    }

    /** Every channel in its requested version that lacked something publishable was sent to. */
    ghost predicate AllServed(channels: seq<Channel>)
      reads this
    {
      forall c, m | c in channels && VersionOf(request.channels, c.id) == c.version
        && request.publishMissing && Publishable(fold, history, request, c, m) :: SentTo(history, c.id)
    }

    lemma ServedMeansSent(channels: seq<Channel>, selected: seq<string>, complete: bool)
      requires SelectedDiscovered(selected) && (complete ==> forall c | c in channels :: Served(c, selected))
      ensures complete && !request.dryRun ==> AllServed(channels)
    {
      forall c, m | c in channels && VersionOf(request.channels, c.id) == c.version && request.publishMissing
        && Publishable(fold, history, request, c, m) && complete && !request.dryRun
        ensures SentTo(history, c.id)
      {
        assert m in selected && m in Missing(fold, selected, c.models);
        assert Served(c, selected);
      }
    }
  }
}
