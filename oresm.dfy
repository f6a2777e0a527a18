/** The model class of the active-record layer. A model holds one entity, the list of
    attributes written since its last sync, and a destroyed flag; its lifecycle
    operations choose an HTTP verb and endpoint, hand one request to the HTTP client and
    fold the reply back into the entity. The client is not modelled: each operation
    returns the request it issues and takes the client's reply as a parameter.

    Every operation is given twice: as a method of `Model` that updates the fields in
    place, and as a step function from the old state to the request and the new state,
    against which the method is proved and about which the lemmas speak. */
module Oresm {
  import opened Values
  import opened Helper

  datatype Verb = GET | POST | PUT | PATCH | DELETE

  /** One call of the HTTP client: verb, endpoint and the object sent (the query
      parameters of a GET; nothing for a DELETE). */
  datatype Request = Request(verb: Verb, endpoint: string, payload: Entity)

  /** The client's answer: a JSON body, which may be null, or a failure. */
  datatype Reply = Body(body: Option<Record>) | Failure(reason: string)

  /** What a lifecycle operation does: the request it issues, if it gets that far, and
      the state and error it ends with. */
  datatype Effect = Effect(request: Option<Request>, outcome: Outcome)

  /** The settings of a model type that overrides none of the getters. */
  function DefaultConfig(typeName: string, pluralize: string -> string): Config {
    Config("", "", Resource(typeName, pluralize), "id")
  }

  /** `Object.assign({}, this._entity)`: a fresh object with the entity's attributes;
      a null entity contributes none. */
  function EntityCopy(s: State): Entity {
    if s.entity.Some? then s.entity.value else map[]
  }

  /** `clearDirty`: the dirty list becomes empty; a frozen model refuses the assignment. */
  function ClearDirtyStep(s: State): Outcome {
    if s.destroyed then Outcome(s, Some(FrozenModel)) else Outcome(s.(dirty := []), None)
  }

  /** `_store`: POST the entity to the collection endpoint, load the reply as the new
      entity, then clear the dirty list. */
  function StoreStep(s: State, c: Config, reply: Reply): Effect
    requires s.entity.Some?
  {
    var req := Request(POST, Endpoint(c, []), s.entity.value);
    match reply
    case Failure(reason) => Effect(Some(req), Outcome(s, Some(Transport(reason))))
    case Body(rec) =>
      var loaded := Load(s, rec);
      if loaded.error.Some? then Effect(Some(req), loaded)
      else Effect(Some(req), ClearDirtyStep(loaded.state))
  }

  /** `_update(verb, body)`: refused on a destroyed model, then on a falsy key (read
      through the key's accessor), before any request; otherwise the body goes to the
      keyed endpoint, the reply is merged into the entity and the dirty list cleared. */
  function UpdateStep(s: State, c: Config, verb: Verb, body: Entity, reply: Reply): Effect {
    if CheckAction(s).Some? then Effect(None, Outcome(s, CheckAction(s)))
    else if c.key !in s.accessors then Effect(None, Outcome(s, Some(MissingKey)))
    else if s.entity.None? then Effect(None, Outcome(s, Some(NullReference)))
    else if !Truthy(Lookup(s.entity.value, c.key)) then Effect(None, Outcome(s, Some(MissingKey)))
    else
      var req := Request(verb, EndpointWithKey(c, s.entity.value), body);
      match reply
      case Failure(reason) => Effect(Some(req), Outcome(s, Some(Transport(reason))))
      case Body(None) => Effect(Some(req), Outcome(s, Some(NullReference)))
      case Body(Some(r)) =>
        var merged := Merge(s, c.key, r);
        if merged.error.Some? then Effect(Some(req), merged)
        else Effect(Some(req), ClearDirtyStep(merged.state))
  }

  /** `save(data)`: merge first, then decide on the merged entity: a falsy key stores
      (POST), a truthy one updates (PUT) with the whole entity as body. */
  function SaveStep(s: State, c: Config, data: Record, reply: Reply): Effect {
    var merged := Merge(s, c.key, data);
    if merged.error.Some? then Effect(None, merged)
    else match IsNew(merged.state, c.key)
      case Err(e) => Effect(None, Outcome(merged.state, Some(e)))
      case Ok(isNew) =>
        if isNew then StoreStep(merged.state, c, reply)
        else UpdateStep(merged.state, c, PUT, merged.state.entity.value, reply)
  }

  /** The body `patch` builds by reducing the dirty list: each name, in order, set to
      the value its accessor reads. */
  function PatchParams(e: Entity, names: seq<string>): Entity {
    if names == [] then map[]
    else PatchParams(e, names[..|names| - 1])[names[|names| - 1] := Lookup(e, names[|names| - 1])]
  }

  /** `patch(data)`: merge, build the body from the dirty list, then update with PATCH. */
  function PatchStep(s: State, c: Config, data: Record, reply: Reply): Effect {
    var merged := Merge(s, c.key, data);
    if merged.error.Some? then Effect(None, merged)
    else if merged.state.dirty != [] && merged.state.entity.None? then
      Effect(None, Outcome(merged.state, Some(NullReference)))
    else UpdateStep(merged.state, c, PATCH, PatchParams(EntityCopy(merged.state), merged.state.dirty), reply)
  }

  /** `delete()`: refused on a destroyed model; otherwise DELETE on the keyed endpoint,
      then the model is destroyed. */
  function DeleteStep(s: State, c: Config, reply: Reply): Effect {
    if CheckAction(s).Some? then Effect(None, Outcome(s, CheckAction(s)))
    else if s.entity.None? then Effect(None, Outcome(s, Some(NullReference)))
    else
      var req := Request(DELETE, EndpointWithKey(c, s.entity.value), map[]);
      match reply
      case Failure(reason) => Effect(Some(req), Outcome(s, Some(Transport(reason))))
      case Body(_) => Effect(Some(req), Outcome(Helper.Destroy(s), None))
  }

  /** `Model.find(id, parameters)`: GET on the endpoint extended by the id, on a fresh
      model, whose entity the reply then becomes. */
  function FindStep(c: Config, id: Value, parameters: Record, reply: Reply): Effect {
    var req := Request(GET, Endpoint(c, [id]), ToMap(parameters));
    match reply
    case Failure(reason) => Effect(Some(req), Outcome(Blank, Some(Transport(reason))))
    case Body(rec) => Effect(Some(req), Load(Blank, rec))
  }

  class Model {
    const config: Config
    var entity: Option<Entity>
    var dirty: seq<string>
    var accessors: set<string>
    var destroyed: bool

    function Current(): State
      reads this
    {
      State(entity, dirty, accessors, destroyed)
    }

    ghost predicate Valid()
      reads this
    {
      Consistent(Current())
    }

    /** `new Model(entity)`: an empty dirty list, then `setEntity`. */
    constructor (config: Config, rec: Option<Record>)
      ensures this.config == config
      ensures Current() == Load(Blank, rec).state && Valid()
    {
      this.config := config;
      entity := None;
      dirty := [];
      accessors := {};
      destroyed := false;
      new;
      LoadRecord(Current(), rec);
      var _ := SetEntity(rec);
    }

    /** The setter an accessor runs for `model[name] = v`. */
    method SetAttribute(name: string, v: Value) returns (err: Option<Error>)
      requires Valid()
      modifies this
      ensures Outcome(Current(), err) == Write(old(Current()), config.key, name, v)
      ensures Valid()
    {
      err := None;
      if name !in accessors {
        return;
      }
      if entity.None? {
        return Some(NullReference);
      }
      if name == config.key && Truthy(Lookup(entity.value, name)) {
        return Some(CannotUpdateKey);
      }
      entity := Some(entity.value[name := v]);
      dirty := dirty + [name];
    }

    /** `updateEntity(this, data)`. */
    method UpdateEntity(data: Record) returns (err: Option<Error>)
      requires Valid()
      modifies this
      ensures Outcome(Current(), err) == Merge(old(Current()), config.key, data)
      ensures Valid()
    {
      var i := 0;
      while i < |data|
        invariant 0 <= i <= |data|
        invariant Valid()
        invariant Merge(old(Current()), config.key, data) == Merge(Current(), config.key, data[i..])
      {
        var f := data[i];
        assert data[i..][0] == f && data[i..][1..] == data[i + 1..];
        if entity.None? {
          return Some(NullReference);
        }
        if f.name != config.key || !Truthy(Lookup(entity.value, f.name)) {
          if f.name !in entity.value {
            if destroyed {
              return Some(FrozenModel);
            }
            accessors := accessors + {f.name};
          }
          var _ := SetAttribute(f.name, f.value);
        }
        i := i + 1;
      }
      err := None;
    }

    /** `setEntity(this, rec)`. */
    method SetEntity(rec: Option<Record>) returns (err: Option<Error>)
      requires Valid()
      modifies this
      ensures Outcome(Current(), err) == Load(old(Current()), rec)
      ensures Valid()
    {
      if destroyed {
        return Some(FrozenModel);
      }
      LoadRecord(Current(), rec);
      err := None;
      match rec {
        case None =>
          entity := None;
        case Some(r) =>
          entity := Some(ToMap(r));
          dirty := Names(r);
          accessors := accessors + set n | n in Names(r);
      }
    }

    /** `destroy(this)`: freezes the model. */
    method Destroy()
      modifies this
      ensures Current() == Helper.Destroy(old(Current()))
    {
      destroyed := true;
    }

    method ClearDirty() returns (err: Option<Error>)
      requires Valid()
      modifies this
      ensures Outcome(Current(), err) == ClearDirtyStep(old(Current()))
      ensures Valid()
    {
      if destroyed {
        return Some(FrozenModel);
      }
      dirty := [];
      err := None;
    }

    /** `getEntity()`. */
    function GetEntity(): Entity
      reads this
    {
      EntityCopy(Current())
    }

    /** `_store()`. */
    method Store(reply: Reply) returns (req: Option<Request>, err: Option<Error>)
      requires Valid() && entity.Some?
      modifies this
      ensures Effect(req, Outcome(Current(), err)) == StoreStep(old(Current()), config, reply)
      ensures Valid()
    {
      req := Some(Request(POST, Endpoint(config, []), entity.value));
      match reply {
        case Failure(reason) =>
          err := Some(Transport(reason));
        case Body(rec) =>
          err := SetEntity(rec);
          if err.None? {
            err := ClearDirty();
          }
      }
    }

    /** `_update(verb, body)`. */
    method Update(verb: Verb, body: Entity, reply: Reply) returns (req: Option<Request>, err: Option<Error>)
      requires Valid()
      modifies this
      ensures Effect(req, Outcome(Current(), err)) == UpdateStep(old(Current()), config, verb, body, reply)
      ensures Valid()
    {
      req := None;
      err := CheckAction(Current());
      if err.Some? {
        return;
      }
      if config.key !in accessors {
        return None, Some(MissingKey);
      }
      if entity.None? {
        return None, Some(NullReference);
      }
      if !Truthy(Lookup(entity.value, config.key)) {
        return None, Some(MissingKey);
      }
      req := Some(Request(verb, EndpointWithKey(config, entity.value), body));
      match reply {
        case Failure(reason) =>
          err := Some(Transport(reason));
        case Body(None) =>
          err := Some(NullReference);
        case Body(Some(r)) =>
          err := UpdateEntity(r);
          if err.None? {
            err := ClearDirty();
          }
      }
    }

    /** `save(data)`. */
    method Save(data: Record, reply: Reply) returns (req: Option<Request>, err: Option<Error>)
      requires Valid()
      modifies this
      ensures Effect(req, Outcome(Current(), err)) == SaveStep(old(Current()), config, data, reply)
      ensures Valid()
    {
      req := None;
      err := UpdateEntity(data);
      if err.Some? {
        return;
      }
      var isNew := IsNew(Current(), config.key);
      if isNew.Err? {
        return None, Some(isNew.error);
      }
      if isNew.value {
        req, err := Store(reply);
      } else {
        req, err := Update(PUT, entity.value, reply);
      }
    }

    /** `patch(data)`. */
    method Patch(data: Record, reply: Reply) returns (req: Option<Request>, err: Option<Error>)
      requires Valid()
      modifies this
      ensures Effect(req, Outcome(Current(), err)) == PatchStep(old(Current()), config, data, reply)
      ensures Valid()
    {
      req := None;
      err := UpdateEntity(data);
      if err.Some? {
        return;
      }
      if dirty != [] && entity.None? {
        return None, Some(NullReference);
      }
      var parameters := PatchParams(GetEntity(), dirty);
      req, err := Update(PATCH, parameters, reply);
    }

    /** `delete()`. */
    method Delete(reply: Reply) returns (req: Option<Request>, err: Option<Error>)
      requires Valid()
      modifies this
      ensures Effect(req, Outcome(Current(), err)) == DeleteStep(old(Current()), config, reply)
      ensures Valid()
    {
      req := None;
      err := CheckAction(Current());
      if err.Some? {
        return;
      }
      if entity.None? {
        return None, Some(NullReference);
      }
      req := Some(Request(DELETE, EndpointWithKey(config, entity.value), map[]));
      if reply.Failure? {
        return req, Some(Transport(reply.reason));
      }
      Destroy();
    }

    /** `Model.find(id, parameters)`: the model it resolves to, or null when it fails. */
    static method Find(config: Config, id: Value, parameters: Record, reply: Reply)
      returns (req: Request, m: Model?, err: Option<Error>)
      ensures FindStep(config, id, parameters, reply).request == Some(req)
      ensures err == FindStep(config, id, parameters, reply).outcome.error
      ensures m == null <==> err.Some?
      ensures m != null ==>
        fresh(m) && m.config == config && m.Valid() &&
        m.Current() == FindStep(config, id, parameters, reply).outcome.state
    {
      var self := new Model(config, None);
      req := Request(GET, Endpoint(config, [id]), ToMap(parameters));
      match reply {
        case Failure(reason) =>
          return req, null, Some(Transport(reason));
        case Body(rec) =>
          err := self.SetEntity(rec);
          m := self;
      }
    }
  }

  // ---------------------------------------------------------------------------------
  // Lifecycle properties

  /** `save` decides on the merged entity: a falsy key POSTs the whole entity to the
      collection endpoint, a truthy key PUTs it to the keyed endpoint, and a destroyed
      model with a truthy key is refused before any request. */
  lemma SaveChoosesVerb(s: State, c: Config, data: Record, reply: Reply)
    requires Consistent(s) && s.entity.Some? && Distinct(data) && FrozenSafe(s, c.key, data)
    ensures var m := Merge(s, c.key, data).state;
      var e := SaveStep(s, c, data, reply);
      && m.entity.Some?
      && (e.request.Some? && e.request.value.verb == POST <==> !Truthy(Lookup(m.entity.value, c.key)))
      && (!Truthy(Lookup(m.entity.value, c.key)) ==>
            e.request == Some(Request(POST, Endpoint(c, []), m.entity.value)))
      && (Truthy(Lookup(m.entity.value, c.key)) && !s.destroyed ==>
            e.request == Some(Request(PUT, EndpointWithKey(c, m.entity.value), m.entity.value)))
      && (Truthy(Lookup(m.entity.value, c.key)) && s.destroyed ==>
            e == Effect(None, Outcome(m, Some(ActionNotAllowed))))
  {
    MergeAssigns(s, c.key, data);
  }

  /** A keyless model saved with data that carries a truthy key is updated, not
      stored: the merge comes first, so the PUT goes to the endpoint of the new key. */
  lemma SaveKeyInDataRoutesToPut(s: State, c: Config, data: Record, reply: Reply, i: nat)
    requires Consistent(s) && s.entity.Some? && !s.destroyed && Distinct(data)
    requires !Truthy(Lookup(s.entity.value, c.key))
    requires i < |data| && data[i].name == c.key && Truthy(data[i].value)
    ensures var m := Merge(s, c.key, data).state;
      && m.entity.Some?
      && SaveStep(s, c, data, reply).request == Some(Request(PUT, Endpoint(c, [data[i].value]), m.entity.value))
  {
    MergeAttributes(s, c.key, data);
    SaveChoosesVerb(s, c, data, reply);
  }

  /** After `_store` succeeds the entity is the reply (or null when the reply is null)
      and nothing is dirty. */
  lemma StoreLoadsReply(s: State, c: Config, rec: Option<Record>)
    requires s.entity.Some? && !s.destroyed
    ensures var e := StoreStep(s, c, Body(rec));
      && e.request == Some(Request(POST, Endpoint(c, []), s.entity.value))
      && e.outcome.error.None?
      && e.outcome.state.dirty == []
      && (Consistent(s) ==> Consistent(e.outcome.state))
      && (rec.None? ==> e.outcome.state.entity.None?)
      && (rec.Some? ==>
            && e.outcome.state.entity.Some?
            && (forall n :: n in e.outcome.state.entity.value <==> n in Names(rec.value))
            && (Distinct(rec.value) ==> forall i :: 0 <= i < |rec.value| ==>
                  Lookup(e.outcome.state.entity.value, rec.value[i].name) == rec.value[i].value))
  {
    LoadRecord(s, rec);
  }

  /** `_update` issues its request exactly when the model is not destroyed and its key
      is truthy; otherwise it fails, leaving the model as it was, with "action not
      allowed" on a destroyed model and the missing-key error on a falsy key. */
  lemma UpdateGuards(s: State, c: Config, verb: Verb, body: Entity, reply: Reply)
    requires Consistent(s)
    ensures var e := UpdateStep(s, c, verb, body, reply);
      && (e.request.Some? <==> !s.destroyed && s.entity.Some? && Truthy(Lookup(s.entity.value, c.key)))
      && (e.request.Some? ==> e.request == Some(Request(verb, EndpointWithKey(c, s.entity.value), body)))
      && (e.request.None? ==> e.outcome.state == s && e.outcome.error.Some?)
      && (s.destroyed ==> e.outcome.error == Some(ActionNotAllowed))
      && (!s.destroyed && s.entity.Some? && !Truthy(Lookup(s.entity.value, c.key)) ==>
            e.outcome.error == Some(MissingKey))
      && (!s.destroyed && s.entity.None? ==>
            e.outcome.error == Some(if c.key in s.accessors then NullReference else MissingKey))
  {
    if s.entity.Some? && Truthy(Lookup(s.entity.value, c.key)) {
      assert c.key in s.entity.value;
    }
  }

  /** After a PUT or PATCH the reply is merged: the key keeps its value, every other
      field of the reply is written, attributes the reply does not name keep theirs,
      and nothing is dirty. */
  lemma UpdateMergesReply(s: State, c: Config, verb: Verb, body: Entity, r: Record)
    requires Consistent(s) && !s.destroyed && s.entity.Some? && Truthy(Lookup(s.entity.value, c.key))
    requires Distinct(r)
    ensures var e := UpdateStep(s, c, verb, body, Body(Some(r)));
      && e.request.Some?
      && e.outcome.error.None?
      && Consistent(e.outcome.state)
      && e.outcome.state.dirty == []
      && e.outcome.state.entity.Some?
      && Lookup(e.outcome.state.entity.value, c.key) == Lookup(s.entity.value, c.key)
      && (forall i :: 0 <= i < |r| && r[i].name != c.key ==>
            Lookup(e.outcome.state.entity.value, r[i].name) == r[i].value)
      && (forall n :: n !in Names(r) ==> Lookup(e.outcome.state.entity.value, n) == Lookup(s.entity.value, n))
  {
    assert c.key in s.entity.value;
    MergeAssigns(s, c.key, r);
    MergeAttributes(s, c.key, r);
    var m := Merge(s, c.key, r).state;
    if c.key in Names(r) {
      var i :| 0 <= i < |r| && Names(r)[i] == c.key;
      assert Skipped(s.entity.value, c.key, r[i]);
    }
  }

  /** The PATCH body maps each name of the list exactly once, to its current value. */
  lemma {:induction false} PatchParamsExact(e: Entity, names: seq<string>)
    ensures forall n :: n in PatchParams(e, names) <==> n in names
    ensures forall n :: n in PatchParams(e, names) ==> PatchParams(e, names)[n] == Lookup(e, n)
  {
    if names != [] {
      var front := names[..|names| - 1];
      PatchParamsExact(e, front);
      assert names == front + [names[|names| - 1]];
    }
  }

  /** A merge into a model with a truthy key keeps the key and the model consistent. */
  lemma MergeKeepsTruthyKey(s: State, key: string, data: Record)
    requires Consistent(s) && !s.destroyed && s.entity.Some? && Truthy(Lookup(s.entity.value, key))
    requires Distinct(data)
    ensures var m := Merge(s, key, data).state;
      && Merge(s, key, data).error.None?
      && Consistent(m) && !m.destroyed && m.entity.Some?
      && Lookup(m.entity.value, key) == Lookup(s.entity.value, key)
      && key in m.accessors
  {
    MergeAssigns(s, key, data);
    MergeAttributes(s, key, data);
    if key in Names(data) {
      var i :| 0 <= i < |data| && Names(data)[i] == key;
      assert Skipped(s.entity.value, key, data[i]);
    }
    assert key in Merge(s, key, data).state.entity.value;
  }

  /** The body `patch` builds after merging into a keyed model: the names dirty before
      and the names the data writes, each with its merged value. */
  lemma PatchBody(s: State, key: string, data: Record)
    requires Consistent(s) && !s.destroyed && s.entity.Some? && Truthy(Lookup(s.entity.value, key))
    requires Distinct(data)
    ensures var m := Merge(s, key, data).state;
      var body := PatchParams(EntityCopy(m), m.dirty);
      && (forall n :: n in body <==> n in s.dirty || (n in Names(data) && n != key))
      && (forall i :: 0 <= i < |data| && data[i].name != key ==>
            data[i].name in body && body[data[i].name] == data[i].value)
      && (forall n :: n in s.dirty && (n !in Names(data) || n == key) ==>
            n in body && body[n] == Lookup(s.entity.value, n))
  {
    var e0 := s.entity.value;
    MergeAssigns(s, key, data);
    MergeAttributes(s, key, data);
    MergeKeepsTruthyKey(s, key, data);
    AssignedNames(e0, key, data);
    var m := Merge(s, key, data).state;
    PatchParamsExact(m.entity.value, m.dirty);
    forall i | 0 <= i < |data| && data[i].name != key ensures data[i].name in m.dirty {
      assert Names(data)[i] == data[i].name;
    }
  }

  /** `patch` on a keyed model sends to the keyed endpoint exactly the names dirty
      before the call and those the data writes (every name but the key), each with
      its value after the merge. */
  lemma PatchSendsDirty(s: State, c: Config, data: Record, reply: Reply)
    requires Consistent(s) && !s.destroyed && s.entity.Some? && Truthy(Lookup(s.entity.value, c.key))
    requires Distinct(data)
    ensures var e := PatchStep(s, c, data, reply);
      && e.request.Some?
      && e.request.value.verb == PATCH
      && e.request.value.endpoint == EndpointWithKey(c, s.entity.value)
      && (forall n :: n in e.request.value.payload <==> n in s.dirty || (n in Names(data) && n != c.key))
      && (forall i :: 0 <= i < |data| && data[i].name != c.key ==>
            data[i].name in e.request.value.payload && e.request.value.payload[data[i].name] == data[i].value)
      && (forall n :: n in s.dirty && (n !in Names(data) || n == c.key) ==>
            n in e.request.value.payload && e.request.value.payload[n] == Lookup(s.entity.value, n))
  {
    MergeKeepsTruthyKey(s, c.key, data);
    PatchBody(s, c.key, data);
    var m := Merge(s, c.key, data).state;
    assert PatchStep(s, c, data, reply).request ==
      Some(Request(PATCH, EndpointWithKey(c, m.entity.value), PatchParams(EntityCopy(m), m.dirty)));
  }

  /** `patch` on a model whose key stays falsy after the merge fails with the
      missing-key error before any request. */
  lemma PatchWithoutKeyRefused(s: State, c: Config, data: Record, reply: Reply)
    requires Consistent(s) && !s.destroyed && s.entity.Some? && !Truthy(Lookup(s.entity.value, c.key))
    requires Distinct(data)
    requires forall i :: 0 <= i < |data| && data[i].name == c.key ==> !Truthy(data[i].value)
    ensures PatchStep(s, c, data, reply) == Effect(None, Outcome(Merge(s, c.key, data).state, Some(MissingKey)))
  {
    MergeAssigns(s, c.key, data);
    MergeAttributes(s, c.key, data);
    var m := Merge(s, c.key, data).state;
    assert !Truthy(Lookup(m.entity.value, c.key)) by {
      if c.key in Names(data) {
        var i :| 0 <= i < |data| && Names(data)[i] == c.key;
      }
    }
  }

  /** On a destroyed model every operation fails and the model stays destroyed. Only
      `save` can still issue a request, the POST of a keyless model, because freezing
      does not stop the merge or the store; loading the reply then fails. */
  lemma DestroyedModelFails(s: State, c: Config, verb: Verb, body: Entity, data: Record,
                            rec: Option<Record>, reply: Reply)
    requires s.destroyed
    ensures UpdateStep(s, c, verb, body, reply) == Effect(None, Outcome(s, Some(ActionNotAllowed)))
    ensures DeleteStep(s, c, reply) == Effect(None, Outcome(s, Some(ActionNotAllowed)))
    ensures ClearDirtyStep(s) == Outcome(s, Some(FrozenModel))
    ensures Load(s, rec) == Outcome(s, Some(FrozenModel))
    ensures var e := PatchStep(s, c, data, reply);
      e.request.None? && e.outcome.error.Some? && e.outcome.state.destroyed
    ensures var e := SaveStep(s, c, data, reply);
      && e.outcome.error.Some? && e.outcome.state.destroyed
      && (e.request.Some? ==> e.request.value.verb == POST)
    ensures s.entity.Some? && !Truthy(Lookup(s.entity.value, c.key)) ==>
      SaveStep(s, c, [], reply).request == Some(Request(POST, Endpoint(c, []), s.entity.value))
  {
    MergeKeepsDestroyed(s, c.key, data);
  }

  /** `delete` sends DELETE to the keyed endpoint and destroys the model; from then on
      `delete` and `_update` are refused with "action not allowed". */
  lemma DeleteIsTerminal(s: State, c: Config, reply: Reply, later: Reply, verb: Verb, body: Entity)
    requires !s.destroyed && s.entity.Some? && reply.Body?
    ensures var e := DeleteStep(s, c, reply);
      var t := e.outcome.state;
      && e.request == Some(Request(DELETE, EndpointWithKey(c, s.entity.value), map[]))
      && e.outcome.error.None?
      && t == s.(destroyed := true)
      && CheckAction(t) == Some(ActionNotAllowed)
      && DeleteStep(t, c, later) == Effect(None, Outcome(t, Some(ActionNotAllowed)))
      && UpdateStep(t, c, verb, body, later) == Effect(None, Outcome(t, Some(ActionNotAllowed)))
  {
  }

  /** `delete` does not check the key: a keyless model sends DELETE to the collection
      endpoint; a keyed one to the collection endpoint extended by the key. */
  lemma DeleteTargets(s: State, c: Config, reply: Reply)
    requires !s.destroyed && s.entity.Some?
    ensures var k := Lookup(s.entity.value, c.key);
      && (!Truthy(k) ==> DeleteStep(s, c, reply).request == Some(Request(DELETE, Endpoint(c, []), map[])))
      && (Truthy(k) ==>
            DeleteStep(s, c, reply).request ==
              Some(Request(DELETE, Endpoint(c, []) + (if Segments(c, []) == [] then "" else "/") + ToText(k), map[])))
  {
    EndpointWithKeyAppends(c, s.entity.value);
  }

  /** `find` GETs the endpoint extended by the id (a falsy id adds nothing) with the
      parameters as query, and the reply becomes the entity of a fresh model whose
      dirty list is the reply's names, not cleared. */
  lemma FindLoadsReply(c: Config, id: Value, parameters: Record, rec: Option<Record>)
    ensures var e := FindStep(c, id, parameters, Body(rec));
      && e.request == Some(Request(GET, Endpoint(c, [id]), ToMap(parameters)))
      && e.outcome.error.None?
      && Consistent(e.outcome.state)
      && !e.outcome.state.destroyed
      && (rec.None? ==> e.outcome.state.entity.None? && e.outcome.state.dirty == [])
      && (rec.Some? ==>
            && e.outcome.state.entity.Some?
            && e.outcome.state.dirty == Names(rec.value)
            && (forall n :: n in e.outcome.state.entity.value <==> n in Names(rec.value))
            && (Distinct(rec.value) ==> forall i :: 0 <= i < |rec.value| ==>
                  Lookup(e.outcome.state.entity.value, rec.value[i].name) == rec.value[i].value))
    ensures !Truthy(id) ==> Endpoint(c, [id]) == Endpoint(c, [])
    ensures Truthy(id) ==> Segments(c, [id]) == Segments(c, []) + [ToText(id)]
  {
    LoadRecord(Blank, rec);
    var probe := map[c.key := id];
    assert Lookup(probe, c.key) == id;
    EndpointWithKeyAppends(c, probe);
  }

  /** `getEntity` on a model built from an object returns a mapping with exactly the
      object's names and values; on a model built from nothing, an empty one. */
  lemma GetEntityCopiesRecord(rec: Option<Record>)
    ensures var s := Load(Blank, rec).state;
      && (rec.None? ==> EntityCopy(s) == map[])
      && (rec.Some? ==> forall n :: n in EntityCopy(s) <==> n in Names(rec.value))
      && (rec.Some? && Distinct(rec.value) ==> forall i :: 0 <= i < |rec.value| ==>
            rec.value[i].name in EntityCopy(s) && EntityCopy(s)[rec.value[i].name] == rec.value[i].value)
  {
    LoadRecord(Blank, rec);
    if rec.Some? {
      ToMapFields(rec.value);
    }
  }
}
