/** Concrete runs of the model: the behaviour the repository's own tests pin down, for
    a `User` model type whose pluralizer maps "user" to "users". */
module Scenarios {
  import opened Values
  import opened Helper
  import opened Oresm

  const Users := Config("", "", "users", "id")

  /** The names and the mapping of a one- or two-field object literal. */
  lemma ToMapSmall(a: Field, b: Field)
    ensures Names([a]) == [a.name] && ToMap([a]) == map[a.name := a.value]
    ensures Names([a, b]) == [a.name, b.name] && ToMap([a, b]) == map[a.name := a.value, b.name := b.value]
  {
    assert [a][..0] == [];
    assert [a, b][..1] == [a];
  }

  /** A `User` model type that overrides no getter is configured as `Users`. */
  lemma DefaultUserConfig(pluralize: string -> string)
    requires pluralize("user") == "users"
    ensures DefaultConfig("User", pluralize) == Users
  {
    assert Lower("User") == "user";
  }

  /** The collection endpoint under the default settings, with a prefix, and with a
      prefix and a host. */
  lemma CollectionEndpoints()
    ensures Endpoint(Users, []) == "/users"
    ensures Endpoint(Users.(prefix := "api"), []) == "/api/users"
    ensures Endpoint(Users.(prefix := "api", host := "http://127.0.0.1"), []) == "http://127.0.0.1/api/users"
  {
    SegmentsInOrder(Users, []);
    SegmentsInOrder(Users.(prefix := "api"), []);
    assert Join("/", ["api", "users"]) == "api/users";
  }

  /** The keyed endpoint of the model built from `{id: 1}`, and of the one built from
      `{user_id: 1}` when the key is `user_id`. */
  lemma KeyedEndpoints()
    ensures EndpointWithKey(Users, Load(Blank, Some([Field("id", Num(1))])).state.entity.value) == "/users/1"
    ensures EndpointWithKey(Users.(key := "user_id"),
                            Load(Blank, Some([Field("user_id", Num(1))])).state.entity.value) == "/users/1"
  {
    assert ToText(Num(1)) == "1" by {
      assert DigitsOf(1) == [Digit(1)];
    }
    EndpointWithKeyAppends(Users, map["id" := Num(1)]);
    EndpointWithKeyAppends(Users.(key := "user_id"), map["user_id" := Num(1)]);
    SegmentsInOrder(Users, []);
  }

  /** The model built from `{id: 1, username: '111'}` has both names dirty, in order. */
  lemma ConstructorMarksLoadedDirty()
    ensures Load(Blank, Some([Field("id", Num(1)), Field("username", Str("111"))])).state.dirty == ["id", "username"]
  {
    ToMapSmall(Field("id", Num(1)), Field("username", Str("111")));
  }

  /** The entity copy of the model built from `{id: 1}` equals that object. */
  lemma ConstructedEntityCopy()
    ensures EntityCopy(Load(Blank, Some([Field("id", Num(1))])).state) == map["id" := Num(1)]
  {
    ToMapSmall(Field("id", Num(1)), Field("id", Num(1)));
  }

  /** A model with a key is not new; one without is. */
  lemma NewnessOfLoadedModels()
    ensures IsNew(Load(Blank, Some([Field("id", Num(1))])).state, "id") == Ok(false)
    ensures IsNew(Load(Blank, Some([Field("name", Num(1))])).state, "id") == Ok(true)
  {
  }

  /** Assigning 2 to the key of the model built from `{id: 1}` fails and changes
      nothing; assigning to `username` of the model built from `{id: 1, username:
      'old'}` writes the entity. */
  lemma SetterScenarios()
    ensures var s := Load(Blank, Some([Field("id", Num(1))])).state;
      Write(s, "id", "id", Num(2)) == Outcome(s, Some(CannotUpdateKey))
    ensures var s := Load(Blank, Some([Field("id", Num(1)), Field("username", Str("old"))])).state;
      var o := Write(s, "id", "username", Str("new"));
      o.error.None? && Lookup(o.state.entity.value, "username") == Str("new")
  {
    ToMapSmall(Field("id", Num(1)), Field("username", Str("old")));
  }

  /** Assigning `username` on the model built from `{id: 1}`, which has no such
      attribute, leaves its entity and dirty list untouched. */
  lemma UnknownNameNotAdded()
    ensures var s := Load(Blank, Some([Field("id", Num(1))])).state;
      var o := Write(s, "id", "username", Str("new"));
      && o.error.None?
      && o.state.entity == s.entity
      && o.state.dirty == s.dirty
      && Lookup(o.state.entity.value, "username") == Undefined
  {
    ToMapSmall(Field("id", Num(1)), Field("username", Str("new")));
  }

  /** Merging `{lastname: 'lastname'}` into the model built from `{id: 1, username:
      'test'}` adds the attribute and keeps the others. */
  lemma MergeAddsAttribute()
    ensures var s := Load(Blank, Some([Field("id", Num(1)), Field("username", Str("test"))])).state;
      Merge(s, "id", [Field("lastname", Str("lastname"))]).state.entity ==
        Some(map["id" := Num(1), "lastname" := Str("lastname"), "username" := Str("test")])
  {
    var f := Field("lastname", Str("lastname"));
    var s := Load(Blank, Some([Field("id", Num(1)), Field("username", Str("test"))])).state;
    ToMapSmall(Field("id", Num(1)), Field("username", Str("test")));
    assert s.entity == Some(map["id" := Num(1), "username" := Str("test")]);
    assert MergeField(s, "id", f) ==
      Outcome(s.(entity := Some(s.entity.value[f.name := f.value]), dirty := s.dirty + [f.name],
                 accessors := s.accessors + {f.name}), None);
    assert [f][1..] == [];
    assert Merge(s, "id", [f]) == MergeField(s, "id", f);
    assert map["id" := Num(1), "username" := Str("test")][f.name := f.value] ==
      map["id" := Num(1), "lastname" := Str("lastname"), "username" := Str("test")];
  }

  /** A string is refused as a document list, and so is undefined, which is what a call
      bound as `collect.bind(User, 'not an array')` receives as its documents; an array
      of two objects gives two models. */
  lemma CollectScenarios(make: Option<Record> -> Entity)
    ensures Collect(make, Str("not an array")) == Err(NotAnArray)
    ensures Collect(make, Undefined) == Err(NotAnArray)
    ensures var r := Collect(make, Arr([Obj([Field("id", Num(1))]), Obj([Field("id", Num(2))])]));
      r.Ok? && |r.value| == 2
  {
  }

  /** `save` of a model without an id POSTs; of a model with one, PUTs. */
  lemma SaveVerbs(reply: Reply)
    ensures var e := SaveStep(Load(Blank, Some([Field("name", Str("test"))])).state, Users, [], reply);
      e.request.Some? && e.request.value.verb == POST
    ensures var e := SaveStep(Load(Blank, Some([Field("id", Num(1)), Field("name", Str("test"))])).state, Users, [], reply);
      e.request.Some? && e.request.value.verb == PUT
  {
    ToMapSmall(Field("name", Str("test")), Field("id", Num(1)));
    ToMapSmall(Field("id", Num(1)), Field("name", Str("test")));
  }

  /** `patch()` on the model built from `{username: 'test'}` fails with the missing-key
      error and issues no request. */
  lemma PatchWithoutKeyFails(reply: Reply)
    ensures var e := PatchStep(Load(Blank, Some([Field("username", Str("test"))])).state, Users, [], reply);
      e.request.None? && e.outcome.error == Some(MissingKey)
  {
  }

  /** The model built from `{username: 'test'}` is saved, the server answering
      `{id: 1, username: 'test'}`, and then patched with `{type: 1}`: the PATCH goes to
      `/users/1` with body `{type: 1}`. */
  method PatchDirtyFields() returns (req: Option<Request>)
    ensures req == Some(Request(PATCH, "/users/1", map["type" := Num(1)]))
  {
    var reply := Body(Some([Field("id", Num(1)), Field("username", Str("test"))]));
    var user := new Model(Users, Some([Field("username", Str("test"))]));
    var saved, err := user.Save([], reply);
    assert user.entity == Some(map["id" := Num(1), "username" := Str("test")]);
    assert user.dirty == [];
    req, err := user.Patch([Field("type", Num(1))], reply);
    assert PatchParams(map["id" := Num(1), "username" := Str("test"), "type" := Num(1)], ["type"]) ==
      map["type" := Num(1)];
    KeyedEndpoints();
  }
}
