/** The pure part of the API poller sensor (server/sensors/api-poller.js):
    dotted-path extraction from a fetched JSON response, change detection
    against the last value seen, the `change` field of the event it
    broadcasts, and the registry of pollers. The fetch, the interval timer
    and the store writes are outside the model: a poll is given the parsed
    response, or nothing when the fetch or the parse failed. */
module ApiPoller {
  import opened Wrappers
  import opened Js
  import opened Protocol

  // ---------------------------------------------------------------------
  // Dotted paths
  // ---------------------------------------------------------------------

  /** `value = value?.[key]` for each key in turn. */
  function Walk(v: Value, keys: seq<string>): Value
    decreases |keys|
  {
    if |keys| == 0 then v else Walk(Get(v, keys[0]), keys[1..])
  }

  /** `extractValue(data, path)` */
  function ExtractValue(data: Value, path: string): Value {
    Walk(data, Split(path, '.'))
  }

  /** The keys are looked up left to right: the first segment on the data,
      the rest of the path on what it found. */
  lemma ExtractDotted(data: Value, key: string, rest: string)
    requires '.' !in key
    ensures ExtractValue(data, key + "." + rest) == ExtractValue(Get(data, key), rest)
  {
    SplitCons(key, rest, '.');
  }

  /** A path without dots is one property lookup. */
  lemma ExtractSingleKey(data: Value, key: string)
    requires '.' !in key
    ensures ExtractValue(data, key) == Get(data, key)
  {
    SplitNoSep(key, '.');
    assert Walk(data, [key]) == Walk(Get(data, key), []);
  }

  /** A path may end in `length`, which reads the size of an array. */
  lemma ExtractLength(key: string, items: seq<Value>)
    requires '.' !in key
    ensures ExtractValue(Obj(map[key := Arr(items)]), key + ".length") == Num(|items| as real)
  {
    var data := Obj(map[key := Arr(items)]);
    ExtractDotted(data, key, "length");
    assert key + ".length" == key + "." + "length";
    assert Get(data, key) == Arr(items);
    ExtractSingleKey(Arr(items), "length");
  }

  /** Once an intermediate value is missing or null, the rest of the path
      yields `undefined` and nothing fails. */
  lemma {:induction false} WalkMissing(v: Value, keys: seq<string>)
    requires v.Undefined? || v.Null?
    requires |keys| > 0
    ensures Walk(v, keys) == Undefined
    decreases |keys|
  {
    if |keys| > 1 {
      WalkMissing(Undefined, keys[1..]);
    }
  }

  // ---------------------------------------------------------------------
  // Change detection
  // ---------------------------------------------------------------------

  /** What `JSON.stringify` writes for a value, as a value: `NaN` becomes
      `null`, so do `undefined` array elements, and object properties whose
      value is `undefined` are dropped. Two values serialise to the same
      text exactly when their forms are equal (object key order is not
      represented). A top-level `undefined` serialises to `undefined`. */
  function Serialised(v: Value): (r: Value)
    ensures v.Undefined? <==> r.Undefined?
    decreases v
  {
    match v
    case NaN => Null
    case Arr(items) =>
      Arr(seq(|items|, i requires 0 <= i < |items| => if items[i].Undefined? then Null else Serialised(items[i])))
    case Obj(m) => Obj(map k | k in m && !m[k].Undefined? :: Serialised(m[k]))
    case _ => v
  }

  /** A serialised form contains no `NaN` and no `undefined` below the top. */
  predicate Plain(v: Value)
    decreases v
  {
    match v
    case NaN => false
    case Arr(items) => forall i :: 0 <= i < |items| ==> !items[i].Undefined? && Plain(items[i])
    case Obj(m) => forall k :: k in m ==> !m[k].Undefined? && Plain(m[k])
    case _ => true
  }

  /** Serialised forms are plain, and plain values serialise to
      themselves; so serialising twice is serialising once. */
  lemma {:induction false} SerialisedPlain(v: Value)
    ensures Plain(Serialised(v))
    decreases v
  {
    match v {
      case Arr(items) =>
        forall i | 0 <= i < |items| && !items[i].Undefined?
          ensures Plain(Serialised(items[i]))
        {
          SerialisedPlain(items[i]);
        }
      case Obj(m) =>
        forall k | k in m && !m[k].Undefined?
          ensures Plain(Serialised(m[k]))
        {
          SerialisedPlain(m[k]);
        }
      case _ =>
    }
  }

  lemma {:induction false} PlainFixed(v: Value)
    requires Plain(v)
    ensures Serialised(v) == v
    decreases v
  {
    match v {
      case Arr(items) =>
        var r := Serialised(v).items;
        forall i | 0 <= i < |items|
          ensures r[i] == items[i]
        {
          PlainFixed(items[i]);
        }
      case Obj(m) =>
        var r := Serialised(v).fields;
        forall k | k in m
          ensures k in r && r[k] == m[k]
        {
          PlainFixed(m[k]);
        }
      case _ =>
    }
  }

  lemma SerialisedIdempotent(v: Value)
    ensures Serialised(Serialised(v)) == Serialised(v)
  {
    SerialisedPlain(v);
    PlainFixed(Serialised(v));
  }

  /** `JSON.stringify(lastValue) !== JSON.stringify(value)` */
  predicate Changed(last: Value, value: Value) {
    Serialised(last) != Serialised(value)
  }

  /** `typeof newValue === 'number' && typeof oldValue === 'number'
      ? newValue - oldValue : null` */
  function Change(newValue: Value, oldValue: Value): (r: Value)
    ensures !IsNumber(newValue) || !IsNumber(oldValue) ==> r == Null
    ensures newValue.Num? && oldValue.Num? ==> r == Num(newValue.n - oldValue.n)
    ensures (newValue.NaN? && IsNumber(oldValue)) || (IsNumber(newValue) && oldValue.NaN?) ==> r == NaN
  {
    if !IsNumber(newValue) || !IsNumber(oldValue) then Null
    else if newValue.Num? && oldValue.Num? then Num(newValue.n - oldValue.n)
    else NaN
  }

  // ---------------------------------------------------------------------
  // Pollers
  // ---------------------------------------------------------------------

  /** The configuration `addPoller` stores, with its defaults applied. */
  datatype Config = Config(name: Value, url: Value, httpMethod: Value, headers: Value, interval: Value, extractPath: Value)

  /** The timers by poller id (a timer is represented by the configuration
      it polls) and the last value seen by poller id. */
  datatype Poller = Poller(pollers: map<string, Config>, lastValues: map<string, Value>)

  const DefaultInterval := 60000

  /** A destructuring default: it applies to `undefined` only. */
  function Default(v: Value, d: Value): (r: Value)
    ensures !v.Undefined? ==> r == v
    ensures v.Undefined? ==> r == d
  {
    if v.Undefined? then d else v
  }

  function ConfigOf(data: Value): (c: Config)
    ensures Get(data, "method").Undefined? ==> c.httpMethod == Str("GET")
    ensures Get(data, "headers").Undefined? ==> c.headers == Obj(map[])
    ensures Get(data, "interval").Undefined? ==> c.interval == Num(DefaultInterval as real)
    ensures c.name == Get(data, "name") && c.url == Get(data, "url") && c.extractPath == Get(data, "extractPath")
  {
    Config(Get(data, "name"), Get(data, "url"), Default(Get(data, "method"), Str("GET")),
           Default(Get(data, "headers"), Obj(map[])), Default(Get(data, "interval"), Num(DefaultInterval as real)),
           Get(data, "extractPath"))
  }

  /** `{ id, ...config }` */
  function ConfigValue(id: string, c: Config): Value {
    Obj(map["id" := Str(id), "name" := c.name, "url" := c.url, "method" := c.httpMethod,
            "headers" := c.headers, "interval" := c.interval, "extractPath" := c.extractPath])
  }

  /** `addPoller(data)` with the fresh id `id`, where `inserted` is the
      outcome of the `INSERT` into `subscriptions` (the error it rejected
      with, if it did): destructuring `undefined` or `null` throws, a
      rejected insert propagates before any timer is started, and
      otherwise the timer is registered and the new poller is broadcast. */
  function AddPoller(p: Poller, data: Value, id: string, inserted: Option<string>): (r: Result<(Poller, ServerEvent)>)
    ensures data.Undefined? || data.Null? ==> r == Err(DestructureError("name", "data", data))
    ensures !data.Undefined? && !data.Null? && inserted.Some? ==> r == Err(inserted.value)
    ensures r.Ok? <==> !data.Undefined? && !data.Null? && inserted.None?
    ensures r.Ok? ==> r.value.0.pollers == p.pollers[id := ConfigOf(data)]
    ensures r.Ok? ==> r.value.0.lastValues == p.lastValues
    ensures r.Ok? ==> r.value.1 == PollerAdded(id, ConfigValue(id, ConfigOf(data)))
  {
    if data.Undefined? || data.Null? then Err(DestructureError("name", "data", data))
    else if inserted.Some? then Err(inserted.value)
    else Ok((p.(pollers := p.pollers[id := ConfigOf(data)]), PollerAdded(id, ConfigValue(id, ConfigOf(data)))))
  }

  /** `lastValues.get(id)` */
  function LastValue(p: Poller, id: string): Value {
    if id in p.lastValues then p.lastValues[id] else Undefined
  }

  /** The value a response yields: the whole response without a path, the
      value at the path with one, and a failure (caught by the poll) when
      the path is truthy but not a string. */
  function Extracted(c: Config, response: Value): Option<Value> {
    if !Truthy(c.extractPath) then Some(response)
    else if c.extractPath.Str? then Some(ExtractValue(response, c.extractPath.s))
    else None
  }

  /** The `environment_event` that `processUpdate` broadcasts. */
  function ValueChanged(eventId: string, c: Config, newValue: Value, oldValue: Value): ServerEvent {
    EnvironmentEvent(eventId, "api_poller", "value_changed",
      Obj(map["name" := c.name, "newValue" := newValue, "oldValue" := oldValue, "change" := Change(newValue, oldValue)]))
  }

  /** One run of `poll` for poller `id`, given the parsed response (None
      when the fetch or the parse failed), the id of the event it would
      create, and whether `processUpdate`'s `INSERT` into
      `environment_events` succeeds. Every failure is caught; the new
      value is stored before the insert runs, so a failed insert keeps it
      and only the broadcast is lost. */
  function Poll(p: Poller, id: string, c: Config, response: Option<Value>, eventId: string, written: bool): (r: (Poller, seq<ServerEvent>))
    ensures r.0.pollers == p.pollers
    ensures response.None? ==> r == (p, [])
    ensures !written ==> r.1 == []
    ensures forall k :: k != id ==> (k in r.0.lastValues <==> k in p.lastValues)
    ensures forall k :: k in p.lastValues && k != id ==> r.0.lastValues[k] == p.lastValues[k]
  {
    if response.None? then (p, [])
    else match Extracted(c, response.value)
      case None => (p, [])
      case Some(value) =>
        var last := LastValue(p, id);
        if Changed(last, value) then
          (p.(lastValues := p.lastValues[id := value]), if written then [ValueChanged(eventId, c, value, last)] else [])
        else (p, [])
  }

  /** A poll whose value serialises differently from the last one stores
      it and, when the event is written, broadcasts exactly one
      `value_changed` event with the old and new values (when it is not,
      none); one that serialises the same changes nothing. */
  lemma PollDetectsChange(p: Poller, id: string, c: Config, response: Value, eventId: string, written: bool)
    requires Extracted(c, response).Some?
    ensures var value := Extracted(c, response).value;
      var r := Poll(p, id, c, Some(response), eventId, written);
      && (Changed(LastValue(p, id), value) ==>
            && r.0.lastValues == p.lastValues[id := value]
            && r.1 == (if written then [ValueChanged(eventId, c, value, LastValue(p, id))] else []))
      && (!Changed(LastValue(p, id), value) ==> r == (p, []))
  {
  }

  /** A change whose event fails to be written is lost for good: the value
      is already stored, so polling the same response again, even with
      the database back, finds nothing changed and broadcasts nothing. */
  lemma FailedWriteLosesChange(p: Poller, id: string, c: Config, response: Value, e1: string, e2: string)
    requires Extracted(c, response).Some? && Changed(LastValue(p, id), Extracted(c, response).value)
    ensures var q := Poll(p, id, c, Some(response), e1, false);
      && q.1 == []
      && LastValue(q.0, id) == Extracted(c, response).value
      && Poll(q.0, id, c, Some(response), e2, true) == (q.0, [])
  {
  }

  /** Polling the same response again right after produces nothing. */
  lemma PollSettles(p: Poller, id: string, c: Config, response: Value, e1: string, e2: string, w1: bool, w2: bool)
    ensures var q := Poll(p, id, c, Some(response), e1, w1).0;
      Poll(q, id, c, Some(response), e2, w2) == (q, [])
  {
  }

  /** `removePoller(id)`: the timer and the last value are forgotten and
      the removal is broadcast. */
  function RemovePoller(p: Poller, id: string): (r: (Poller, ServerEvent))
    ensures id !in r.0.pollers && id !in r.0.lastValues
    ensures forall k :: k != id ==> (k in r.0.pollers <==> k in p.pollers) && (k in r.0.lastValues <==> k in p.lastValues)
    ensures forall k :: k in p.pollers && k != id ==> r.0.pollers[k] == p.pollers[k]
    ensures forall k :: k in p.lastValues && k != id ==> r.0.lastValues[k] == p.lastValues[k]
    ensures r.1 == PollerRemoved(id)
  {
    (Poller(p.pollers - {id}, p.lastValues - {id}), PollerRemoved(id))
  }

  /** Removing a poller just added, under a fresh id, restores the
      registry. */
  lemma AddThenRemove(p: Poller, data: Value, id: string)
    requires id !in p.pollers && id !in p.lastValues
    requires !data.Undefined? && !data.Null?
    ensures RemovePoller(AddPoller(p, data, id, None).value.0, id).0 == p
  {
  }

  /** A fetch still in flight when its poller is removed completes
      unguarded: a changed value re-creates the `lastValues` entry that
      `removePoller` deleted. */
  lemma LatePollAfterRemove(p: Poller, id: string, c: Config, response: Value, eventId: string, written: bool)
    requires Extracted(c, response).Some? && !Extracted(c, response).value.Undefined?
    ensures var q := RemovePoller(p, id).0;
      id in Poll(q, id, c, Some(response), eventId, written).0.lastValues
  {
  }
}
