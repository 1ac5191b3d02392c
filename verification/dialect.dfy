/** The sync-dialect adapter of `GPodderSync` (litepop.py and litepop-subs.py): which
    endpoint each backend uses, how the device id is resolved, how response bodies are
    normalised into lists, and how outgoing episode actions and subscription changes
    are formatted. HTTP itself is outside the model: a request is a value, and the
    server's answer is a parameter. */
module Dialect {
  import opened Base
  import opened Text
  import opened Decimal
  import opened Json

  /** `self.backend`: the configured backend name, lower-cased. */
  datatype Backend = Opodsync | Nextcloud | OtherBackend(name: string)

  function BackendOf(configured: string): (b: Backend)
    ensures b.OtherBackend? <==> Lower(configured) != "opodsync" && Lower(configured) != "nextcloud"
  {
    var name := Lower(configured);
    if name == "opodsync" then Opodsync else if name == "nextcloud" then Nextcloud else OtherBackend(name)
  }

  datatype Verb = HttpGet | HttpPost | HttpDelete

  /** An HTTP request: verb, path relative to the server URL, query parameters and JSON body. */
  datatype Request = Request(verb: Verb, path: string, query: seq<(string, int)>, body: Json)

  /** What the client learns from the server: a failure (connection error or error status),
      or success with the decoded body; `None` stands for an empty or non-JSON body. */
  datatype Response = Failed | Ok(body: Option<Json>)

  // ---------------------------------------------------------------- endpoints

  function SubscriptionsPath(b: Backend, user: string, device: string): (p: Option<string>)
    ensures p.Some? <==> !b.OtherBackend?
  {
    match b
    case Nextcloud => Some("subscription")
    case Opodsync => Some("subscriptions/" + user + "/" + device + ".json")
    case OtherBackend(_) => None
  }

  function ActionsPath(b: Backend, user: string): (p: Option<string>)
    ensures p.Some? <==> !b.OtherBackend?
  {
    match b
    case Nextcloud => Some("episode_action")
    case Opodsync => Some("api/2/episodes/" + user + ".json")
    case OtherBackend(_) => None
  }

  function UploadActionsPath(b: Backend, user: string): (p: Option<string>)
    ensures p.Some? <==> !b.OtherBackend?
    ensures b == Opodsync ==> p == ActionsPath(b, user)
    ensures b == Nextcloud ==> p != ActionsPath(b, user)
  {
    match b
    case Nextcloud => Some("episode_action/create")
    case Opodsync => ActionsPath(b, user)
    case OtherBackend(_) => None
  }

  /** Distinct users or devices never share an opodsync subscription endpoint, as long
      as neither name contains a slash. */
  lemma SubscriptionsPathInjective(u1: string, d1: string, u2: string, d2: string)
    requires '/' !in u1 && '/' !in d1 && '/' !in u2 && '/' !in d2
    requires SubscriptionsPath(Opodsync, u1, d1) == SubscriptionsPath(Opodsync, u2, d2)
    ensures u1 == u2 && d1 == d2
  {
    var p1 := "subscriptions/" + u1 + "/" + d1 + ".json";
    var p2 := "subscriptions/" + u2 + "/" + d2 + ".json";
    assert p1 == "subscriptions" + ['/'] + u1 + ['/'] + (d1 + ".json");
    assert p2 == "subscriptions" + ['/'] + u2 + ['/'] + (d2 + ".json");
    assert '/' !in d1 + ".json";
    assert '/' !in d2 + ".json";
    SplitThree("subscriptions", u1, d1 + ".json", '/');
    SplitThree("subscriptions", u2, d2 + ".json", '/');
    assert d1 == (d1 + ".json")[..|d1 + ".json"| - 5];
    assert d2 == (d2 + ".json")[..|d2 + ".json"| - 5];
  }

  // ---------------------------------------------------------------- device id

  /** The device listing `_resolve_device_id` fetches: only for the sentinel id
      "default" on opodsync. */
  function DeviceRequest(device: string, b: Backend, user: string): (r: Option<Request>)
    ensures r.Some? <==> device == "default" && b == Opodsync
  {
    if device == "default" && b == Opodsync
    then Some(Request(HttpGet, "api/2/devices/" + user + ".json", [], JNull))
    else None
  }

  /** The listing response names a device to adopt: a non-empty list whose first
      element is an object with an "id". */
  predicate NamesDevice(resp: Response) {
    && resp.Ok? && resp.body.Some? && resp.body.value.JArr?
    && |resp.body.value.items| > 0
    && Has(resp.body.value.items[0], "id")
  }

  /** `_resolve_device_id` (written twice in the source, modelled once). The id
      changes only from "default" on opodsync, and then to the first listed device's
      "id" value, whatever JSON value that is. */
  function ResolveDeviceId(device: string, b: Backend, resp: Response): (r: Json)
    ensures r != JStr(device) ==> device == "default" && b == Opodsync && NamesDevice(resp)
    ensures device == "default" && b == Opodsync && NamesDevice(resp) ==>
      Lookup(resp.body.value.items[0].fields, "id") == Some(r)
    ensures device != "default" || b != Opodsync ==> r == JStr(device)
  {
    if device != "default" || b != Opodsync then JStr(device)
    else if NamesDevice(resp) then Get(resp.body.value.items[0], "id", JNull)
    else JStr(device)
  }

  // ---------------------------------------------------------------- subscriptions

  /** The string elements of a list, in order. */
  function StringsOnly(xs: seq<Json>): (r: seq<Json>)
    ensures |r| <= |xs|
    ensures forall i :: 0 <= i < |r| ==> r[i].JStr? && r[i] in xs
    ensures forall x :: x in xs && x.JStr? ==> x in r
  {
    if |xs| == 0 then []
    else
      var rest := StringsOnly(xs[1..]);
      assert forall x :: x in xs[1..] ==> x in xs;
      assert forall x :: x in xs ==> x == xs[0] || x in xs[1..];
      if xs[0].JStr? then [xs[0]] + rest else rest
  }

  /** A value the source hands on as the subscription list: `len()` must accept it. */
  function Listed(v: Json): Json {
    if Sized(v) then v else EmptyArr
  }

  /** The response normalisation of `get_subscriptions`: "add" wins over
      "subscriptions", which wins over "data" (string elements only); any other
      object gives []; a list passes through; any other value gives []. */
  function NormalizeSubscriptions(data: Json): (r: Json)
    ensures data.JArr? ==> r == data
    ensures !data.JArr? && !data.JObj? ==> r == EmptyArr
    ensures Has(data, "add") ==> r == Listed(Get(data, "add", EmptyArr))
    ensures !Has(data, "add") && Has(data, "subscriptions") ==>
      r == Listed(Get(data, "subscriptions", EmptyArr))
    ensures data.JObj? && !Has(data, "add") && !Has(data, "subscriptions") && Has(data, "data") ==>
      && r.JArr?
      && (forall i :: 0 <= i < |r.items| ==> r.items[i].JStr?)
      && (Elements(Get(data, "data", EmptyArr)).Some? ==>
            forall x :: x in Elements(Get(data, "data", EmptyArr)).value ==> (x in r.items <==> x.JStr?))
    ensures data.JObj? && !Has(data, "add") && !Has(data, "subscriptions") && !Has(data, "data") ==>
      r == EmptyArr
  {
    match data
    case JArr(_) => data
    case JObj(_) =>
      if Has(data, "add") then Listed(Get(data, "add", EmptyArr))
      else if Has(data, "subscriptions") then Listed(Get(data, "subscriptions", EmptyArr))
      else if Has(data, "data") then
        match Elements(Get(data, "data", EmptyArr))
        case Some(xs) => JArr(StringsOnly(xs))
        case None => EmptyArr
      else EmptyArr
    case _ => EmptyArr
  }

  /** `get_subscriptions`: the request for this backend and the list handed back;
      every failure yields []. */
  function GetSubscriptions(b: Backend, user: string, device: string, resp: Response): (r: (Option<Request>, Json))
    ensures r.0.Some? <==> !b.OtherBackend?
    ensures r.0.Some? ==> r.0.value.verb == HttpGet && Some(r.0.value.path) == SubscriptionsPath(b, user, device)
    ensures b.OtherBackend? || resp.Failed? || resp.body.None? ==> r.1 == EmptyArr
    ensures !b.OtherBackend? && resp.Ok? && resp.body.Some? ==> r.1 == NormalizeSubscriptions(resp.body.value)
  {
    match SubscriptionsPath(b, user, device)
    case None => (None, EmptyArr)
    case Some(path) =>
      var req := Some(Request(HttpGet, path, [], JNull));
      if resp.Ok? && resp.body.Some? then (req, NormalizeSubscriptions(resp.body.value))
      else (req, EmptyArr)
  }

  // ---------------------------------------------------------------- episode actions (download)

  /** The request of `get_episode_actions`; a `since` cursor is sent to opodsync only. */
  function ActionsRequest(b: Backend, user: string, since: Option<int>): (r: Option<Request>)
    ensures r.Some? <==> !b.OtherBackend?
    ensures r.Some? ==> r.value.verb == HttpGet && Some(r.value.path) == ActionsPath(b, user)
    ensures r.Some? && |r.value.query| > 0 ==> b == Opodsync && since.Some? && r.value.query == [("since", since.value)]
    ensures r.Some? && b == Opodsync && since.Some? ==> |r.value.query| == 1
  {
    match ActionsPath(b, user)
    case None => None
    case Some(path) =>
      var query := if since.Some? && b == Opodsync then [("since", since.value)] else [];
      Some(Request(HttpGet, path, query, JNull))
  }

  /** The normalisation of `get_episode_actions`: a list passes through, an object
      contributes its "actions" value, everything else gives []. */
  function NormalizeActions(data: Json): (r: Json)
    ensures data.JArr? ==> r == data
    ensures Has(data, "actions") ==> r == Listed(Get(data, "actions", EmptyArr))
    ensures !data.JArr? && !Has(data, "actions") ==> r == EmptyArr
    ensures Sized(r)
  {
    match data
    case JArr(_) => data
    case JObj(_) => if Has(data, "actions") then Listed(Get(data, "actions", EmptyArr)) else EmptyArr
    case _ => EmptyArr
  }

  // ---------------------------------------------------------------- episode actions (upload)

  /** A calendar time as `datetime` holds it. */
  datatype DateTime = DateTime(year: nat, month: nat, day: nat, hour: nat, minute: nat, second: nat)

  /** `strftime("%Y-%m-%dT%H:%M:%S")`: no time zone suffix. */
  function IsoText(dt: DateTime): (r: string)
    ensures |r| > 0 && IsDigit(r[|r| - 1])
  {
    var head := NatStr(dt.year) + "-" + Pad2(dt.month) + "-" + Pad2(dt.day) + "T"
      + Pad2(dt.hour) + ":" + Pad2(dt.minute) + ":";
    var tail := Pad2(dt.second);
    assert (head + tail)[|head + tail| - 1] == tail[|tail| - 1];
    head + tail
  }

  /** An episode action as `upload_episode_actions` formats it. */
  datatype Formatted = Formatted(
    podcast: Json,
    episode: Json,
    action: string,
    timestamp: string,
    device: Option<Json>,
    position: Option<int>,
    started: Option<int>,
    total: Option<int>,
    guid: Option<string>)
  {
    /** The JSON object sent on the wire, keys in the source's insertion order. */
    function ToJson(): Json {
      JObj(
        [("podcast", podcast), ("episode", episode), ("action", JStr(action)), ("timestamp", JStr(timestamp))]
        + (if device.Some? then [("device", device.value)] else [])
        + (if position.Some? then [("position", JNum(position.value))] else [])
        + (if started.Some? then [("started", JNum(started.value))] else [])
        + (if total.Some? then [("total", JNum(total.value))] else [])
        + (if guid.Some? then [("guid", JStr(guid.value))] else []))
    }
  }

  /** How an optional numeric field is carried over. `None` means the comparison
      raised TypeError (a non-numeric value), which aborts the whole upload;
      `Some(None)` means the field is left out. */
  function NumericField(a: Json, key: string, strictlyPositive: bool): (r: Option<Option<int>>)
    requires a.JObj?
    ensures r.None? <==> Has(a, key) && Get(a, key, JNull) != JNull && AsNumber(Get(a, key, JNull)).None?
    ensures r.Some? && r.value.Some? ==>
      && Has(a, key) && AsNumber(Get(a, key, JNull)) == Some(r.value.value)
      && (if strictlyPositive then r.value.value > 0 else r.value.value >= 0)
    ensures Has(a, key) && AsNumber(Get(a, key, JNull)).Some? &&
      (if strictlyPositive then AsNumber(Get(a, key, JNull)).value > 0 else AsNumber(Get(a, key, JNull)).value >= 0)
      ==> r == Some(AsNumber(Get(a, key, JNull)))
  {
    if !Has(a, key) then Some(None)
    else
      var v := Get(a, key, JNull);
      if v == JNull then Some(None)
      else match AsNumber(v)
        case None => None
        case Some(n) => if (if strictlyPositive then n > 0 else n >= 0) then Some(Some(n)) else Some(None)
  }

  /** The guid is kept, stripped, only when it is a string that is not blank;
      a truthy non-string aborts the upload (it has no `strip`). */
  function GuidField(a: Json): (r: Option<Option<string>>)
    requires a.JObj?
    ensures r.None? <==> Has(a, "guid") && Truthy(Get(a, "guid", JNull)) && !Get(a, "guid", JNull).JStr?
    ensures r.Some? && r.value.Some? ==>
      Get(a, "guid", JNull).JStr? && r.value.value == Strip(Get(a, "guid", JNull).s) && |r.value.value| > 0
    ensures Has(a, "guid") && Get(a, "guid", JNull).JStr? && |Strip(Get(a, "guid", JNull).s)| > 0 ==>
      r == Some(Some(Strip(Get(a, "guid", JNull).s)))
  {
    if !Has(a, "guid") then Some(None)
    else
      var g := Get(a, "guid", JNull);
      if !Truthy(g) then Some(None)
      else if !g.JStr? then None
      else if |Strip(g.s)| > 0 then Some(Some(Strip(g.s)))
      else Some(None)
  }

  /** The upload timestamp: a string the abstract ISO parser accepts is reprinted,
      anything else (missing, empty, unparsable, not a string) becomes `now`. */
  function TimestampField(a: Json, parseIso: string -> Option<DateTime>, now: DateTime): (r: string)
    requires a.JObj?
    ensures |r| > 0 && r[|r| - 1] != 'Z'
  {
    var t := Get(a, "timestamp", JNull);
    if Truthy(t) && t.JStr? && parseIso(t.s).Some? then IsoText(parseIso(t.s).value) else IsoText(now)
  }

  /** One action of `upload_episode_actions`. None means the source raised while
      formatting, which discards the whole batch. */
  function FormatAction(a: Json, b: Backend, device: Json, parseIso: string -> Option<DateTime>, now: DateTime)
    : (r: Option<Formatted>)
    ensures r.Some? ==> a.JObj?
    ensures r.Some? ==> Get(a, "action", JStr("")).JStr? && r.value.action == Lower(Get(a, "action", JStr("")).s)
    ensures r.Some? ==> r.value.podcast == Get(a, "podcast", JStr("")) && r.value.episode == Get(a, "episode", JStr(""))
    ensures r.Some? ==> (r.value.device.Some? <==> b == Opodsync)
    ensures r.Some? && b == Opodsync ==> r.value.device == Some(device)
    ensures r.Some? ==> r.value.timestamp == TimestampField(a, parseIso, now)
    ensures r.Some? ==> NumericField(a, "position", false) == Some(r.value.position)
    ensures r.Some? ==> NumericField(a, "started", false) == Some(r.value.started)
    ensures r.Some? ==> NumericField(a, "total", true) == Some(r.value.total)
    ensures r.Some? ==> GuidField(a) == Some(r.value.guid)
    ensures r.None? <==>
      || !a.JObj?
      || !Get(a, "action", JStr("")).JStr?
      || NumericField(a, "position", false).None?
      || NumericField(a, "started", false).None?
      || NumericField(a, "total", true).None?
      || GuidField(a).None?
  {
    if !a.JObj? then None
    else
      var act := Get(a, "action", JStr(""));
      if !act.JStr? then None
      else
        var pos := NumericField(a, "position", false);
        var started := NumericField(a, "started", false);
        var total := NumericField(a, "total", true);
        var guid := GuidField(a);
        if pos.None? || started.None? || total.None? || guid.None? then None
        else Some(Formatted(
          Get(a, "podcast", JStr("")),
          Get(a, "episode", JStr("")),
          Lower(act.s),
          TimestampField(a, parseIso, now),
          if b == Opodsync then Some(device) else None,
          pos.value, started.value, total.value, guid.value))
  }

  /** Formats every action, or fails as a whole. */
  function FormatAll(actions: seq<Json>, b: Backend, device: Json, parseIso: string -> Option<DateTime>, now: DateTime)
    : (r: Option<seq<Formatted>>)
    ensures r.Some? <==> forall i :: 0 <= i < |actions| ==> FormatAction(actions[i], b, device, parseIso, now).Some?
    ensures r.Some? ==> |r.value| == |actions|
    ensures r.Some? ==> forall i :: 0 <= i < |actions| ==> r.value[i] == FormatAction(actions[i], b, device, parseIso, now).value
  {
    MapAll(actions, a => FormatAction(a, b, device, parseIso, now))
  }

  datatype UploadPlan = NoRequest | Send(request: Request)

  /** `upload_episode_actions` up to the POST: an empty batch, a batch that fails
      to format, or an unknown backend sends nothing; otherwise one POST carries
      every action, in order. */
  function UploadEpisodeActions(actions: seq<Json>, b: Backend, user: string, device: Json,
                                parseIso: string -> Option<DateTime>, now: DateTime): (r: UploadPlan)
    ensures |actions| == 0 ==> r == NoRequest
    ensures r.Send? ==>
      && r.request.verb == HttpPost
      && Some(r.request.path) == UploadActionsPath(b, user)
      && r.request.body.JArr?
      && |r.request.body.items| == |actions|
      && forall i :: 0 <= i < |actions| ==>
           FormatAction(actions[i], b, device, parseIso, now).Some? &&
           r.request.body.items[i] == FormatAction(actions[i], b, device, parseIso, now).value.ToJson()
    ensures r.NoRequest? <==>
      || |actions| == 0
      || b.OtherBackend?
      || exists i :: 0 <= i < |actions| && FormatAction(actions[i], b, device, parseIso, now).None?
  {
    if |actions| == 0 then NoRequest
    else match FormatAll(actions, b, device, parseIso, now)
      case None => NoRequest
      case Some(fs) =>
        match UploadActionsPath(b, user)
        case None => NoRequest
        case Some(path) =>
          Send(Request(HttpPost, path, [], JArr(seq(|fs|, i requires 0 <= i < |fs| => fs[i].ToJson()))))
  }

  /** The value `upload_episode_actions` returns: the server's JSON reply, or {}
      when nothing was sent, the request failed, or the reply was empty or not JSON. */
  function UploadReply(plan: UploadPlan, resp: Response): (r: Json)
    ensures plan.NoRequest? || resp.Failed? ==> r == EmptyObj
    ensures Truthy(r) ==> plan.Send? && resp.Ok? && resp.body == Some(r)
    // a sent request whose reply parsed returns that reply as it is
    ensures plan.Send? && resp.Ok? && resp.body.Some? ==> r == resp.body.value
    ensures plan.Send? && resp.Ok? && resp.body.None? ==> r == EmptyObj
  {
    if plan.Send? && resp.Ok? && resp.body.Some? then resp.body.value else EmptyObj
  }

  // ---------------------------------------------------------------- subscription changes

  /** The requests `upload_subscription_changes` plans: nextcloud sends one POST per
      added URL then one DELETE per removed URL; opodsync sends one POST whose body
      has "add" and "remove" only when those lists are non-empty. */
  function SubscriptionChangeRequests(b: Backend, user: string, device: string, add: seq<string>, remove: seq<string>)
    : (r: seq<Request>)
    ensures b == Nextcloud ==> |r| == |add| + |remove|
    ensures b == Nextcloud ==> forall i :: 0 <= i < |add| ==>
      r[i] == Request(HttpPost, "subscription", [], JObj([("url", JStr(add[i]))]))
    ensures b == Nextcloud ==> forall i :: 0 <= i < |remove| ==>
      r[|add| + i] == Request(HttpDelete, "subscription", [], JObj([("url", JStr(remove[i]))]))
    ensures b == Opodsync ==> (
      && |r| == 1 && r[0].verb == HttpPost
      && r[0].path == "api/2/subscriptions/" + user + "/" + device + ".json"
      && (Has(r[0].body, "add") <==> |add| > 0)
      && (Has(r[0].body, "remove") <==> |remove| > 0)
      && (|add| > 0 ==> Get(r[0].body, "add", JNull) == JArr(seq(|add|, i requires 0 <= i < |add| => JStr(add[i]))))
      && (|remove| > 0 ==> Get(r[0].body, "remove", JNull) == JArr(seq(|remove|, i requires 0 <= i < |remove| => JStr(remove[i])))))
    ensures b.OtherBackend? ==> r == []
  {
    match b
    case Nextcloud =>
      seq(|add|, i requires 0 <= i < |add| => Request(HttpPost, "subscription", [], JObj([("url", JStr(add[i]))])))
      + seq(|remove|, i requires 0 <= i < |remove| => Request(HttpDelete, "subscription", [], JObj([("url", JStr(remove[i]))])))
    case Opodsync =>
      var addList := JArr(seq(|add|, i requires 0 <= i < |add| => JStr(add[i])));
      var removeList := JArr(seq(|remove|, i requires 0 <= i < |remove| => JStr(remove[i])));
      var fields := (if |add| > 0 then [("add", addList)] else []) + (if |remove| > 0 then [("remove", removeList)] else []);
      LookupAppend(if |add| > 0 then [("add", addList)] else [], if |remove| > 0 then [("remove", removeList)] else [], "add");
      LookupAppend(if |add| > 0 then [("add", addList)] else [], if |remove| > 0 then [("remove", removeList)] else [], "remove");
      [Request(HttpPost, "api/2/subscriptions/" + user + "/" + device + ".json", [], JObj(fields))]
    case OtherBackend(_) => []
  }

  /** Sends requests in order and stops at the first one the server rejects. */
  function RunRequests(reqs: seq<Request>, accepted: Request -> bool): (r: (seq<Request>, bool))
    ensures r.1 <==> forall i :: 0 <= i < |reqs| ==> accepted(reqs[i])
    ensures r.1 ==> r.0 == reqs
    ensures !r.1 ==> 0 < |r.0| <= |reqs| && r.0 == reqs[..|r.0|] && !accepted(r.0[|r.0| - 1])
    ensures !r.1 ==> forall i :: 0 <= i < |r.0| - 1 ==> accepted(r.0[i])
  {
    if |reqs| == 0 then ([], true)
    else if !accepted(reqs[0]) then ([reqs[0]], false)
    else
      var rest := RunRequests(reqs[1..], accepted);
      assert forall i :: 1 <= i < |reqs| ==> reqs[i] == reqs[1..][i - 1];
      ([reqs[0]] + rest.0, rest.1)
  }

  /** `upload_subscription_changes`: with nothing to add or remove it succeeds
      without sending anything; otherwise it succeeds iff every planned request is
      accepted (an unknown backend plans none and so reports success). */
  function UploadSubscriptionChanges(b: Backend, user: string, device: string, add: seq<string>, remove: seq<string>,
                                     accepted: Request -> bool): (r: (seq<Request>, bool))
    ensures |add| == 0 && |remove| == 0 ==> r == ([], true)
    ensures |add| > 0 || |remove| > 0 ==>
      (r.1 <==> forall q :: q in SubscriptionChangeRequests(b, user, device, add, remove) ==> accepted(q))
    ensures r.0 <= SubscriptionChangeRequests(b, user, device, add, remove)
  {
    if |add| == 0 && |remove| == 0 then ([], true)
    else RunRequests(SubscriptionChangeRequests(b, user, device, add, remove), accepted)
  }
}
