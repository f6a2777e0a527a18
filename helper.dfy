/** The helper of the active-record layer: endpoint construction, resource naming, the
    "new" and "destroyed" tests, and the bookkeeping of a model's entity and dirty list.
    The helper's operations that change a model are stated here as functions from the
    model's state to its next state; the model class performs them in place. */
module Helper {
  import opened Values

  /** The per-type settings a model exposes through its getters. */
  datatype Config = Config(host: string, prefix: string, resource: string, key: string)

  /** What the helper reads and writes on a model:
      entity     `_entity`, null (None) until a record is set
      dirty      `_dirty`, the names written since the last reset, repeats kept
      accessors  the names for which an accessor property is installed on the model
      destroyed  whether the model has been frozen by `destroy` */
  datatype State = State(entity: Option<Entity>, dirty: seq<string>, accessors: set<string>, destroyed: bool)

  /** A model straight after `this._dirty = []`, before any record is set. */
  const Blank := State(None, [], {}, false)

  /** The result of a change of state: the state afterwards and the error raised, if any.
      A merge that fails part-way keeps the writes it made before the failure. */
  datatype Outcome = Outcome(state: State, error: Option<Error>)

  /** Every entity attribute and every dirty name has an accessor on the model. */
  ghost predicate Consistent(s: State) {
    && (s.entity.Some? ==> s.entity.value.Keys <= s.accessors)
    && (forall n :: n in s.dirty ==> n in s.accessors)
  }

  // ---------------------------------------------------------------------------------
  // Endpoints

  /** `parts.filter(Boolean)`. */
  function TruthyOnly(vs: seq<Value>): seq<Value> {
    if vs == [] then []
    else if Truthy(vs[0]) then [vs[0]] + TruthyOnly(vs[1..])
    else TruthyOnly(vs[1..])
  }

  function Texts(vs: seq<Value>): seq<string> {
    seq(|vs|, i requires 0 <= i < |vs| => ToText(vs[i]))
  }

  /** The path components of an endpoint: prefix, resource and the extra parts, with
      the falsy ones dropped. */
  function Segments(c: Config, parts: seq<Value>): seq<string> {
    Texts(TruthyOnly([Str(c.prefix), Str(c.resource)] + parts))
  }

  /** `constructEndpoint(model, ...parts)`. */
  function Endpoint(c: Config, parts: seq<Value>): string {
    c.host + "/" + Join("/", Segments(c, parts))
  }

  /** `constructEndpointWithKey(model)` for a model whose entity is `e`. */
  function EndpointWithKey(c: Config, e: Entity): string {
    Endpoint(c, [Lookup(e, c.key)])
  }

  /** `s.split(sep)`: the pieces between occurrences of `sep`. */
  function Split(s: string, sep: char): (pieces: seq<string>)
    ensures |pieces| >= 1
  {
    if s == [] then [""]
    else
      var rest := Split(s[1..], sep);
      if s[0] == sep then [""] + rest else [[s[0]] + rest[0]] + rest[1..]
  }

  lemma {:induction false} TruthyOnlyAppend(a: seq<Value>, b: seq<Value>)
    ensures TruthyOnly(a + b) == TruthyOnly(a) + TruthyOnly(b)
  {
    if a == [] {
      assert a + b == b;
    } else {
      assert (a + b)[0] == a[0];
      assert (a + b)[1..] == a[1..] + b;
      TruthyOnlyAppend(a[1..], b);
    }
  }

  /** The filter keeps exactly the truthy values. */
  lemma {:induction false} TruthyOnlyMembers(vs: seq<Value>)
    ensures forall v :: v in TruthyOnly(vs) <==> v in vs && Truthy(v)
  {
    if vs != [] {
      TruthyOnlyMembers(vs[1..]);
      assert vs == [vs[0]] + vs[1..];
    }
  }

  lemma {:induction false} JoinSnoc(sep: string, parts: seq<string>, x: string)
    ensures Join(sep, parts + [x]) == if parts == [] then x else Join(sep, parts) + sep + x
  {
    if |parts| > 1 {
      assert (parts + [x])[1..] == parts[1..] + [x];
      JoinSnoc(sep, parts[1..], x);
    }
  }

  lemma {:induction false} SplitWithout(p: string, sep: char)
    requires sep !in p
    ensures Split(p, sep) == [p]
  {
    if p != [] {
      SplitWithout(p[1..], sep);
      assert [p[0]] + p[1..] == p;
    }
  }

  lemma {:induction false} SplitAt(p: string, sep: char, rest: string)
    requires sep !in p
    ensures Split(p + [sep] + rest, sep) == [p] + Split(rest, sep)
  {
    if p == [] {
      assert p + [sep] + rest == [sep] + rest;
      assert ([sep] + rest)[1..] == rest;
    } else {
      assert (p + [sep] + rest)[1..] == p[1..] + [sep] + rest;
      SplitAt(p[1..], sep, rest);
      assert [p[0]] + p[1..] == p;
    }
  }

  /** Splitting a join at its separator gives the parts back, when no part holds it. */
  lemma {:induction false} SplitJoin(parts: seq<string>, sep: char)
    requires parts != []
    requires forall p :: p in parts ==> sep !in p
    ensures Split(Join([sep], parts), sep) == parts
  {
    if |parts| == 1 {
      SplitWithout(parts[0], sep);
    } else {
      SplitJoin(parts[1..], sep);
      SplitAt(parts[0], sep, Join([sep], parts[1..]));
      assert [parts[0]] + parts[1..] == parts;
    }
  }

  /** A truthy value other than an array converts to a non-empty string. */
  lemma TextOfTruthy(v: Value)
    requires Truthy(v) && !v.Arr?
    ensures ToText(v) != ""
  {
    if v.Num? {
      var d := if v.n < 0 then -v.n else v.n;
      assert |DigitsOf(d)| > 0 by {
        if d >= 10 {
          assert DigitsOf(d) == DigitsOf(d / 10) + [Digit(d % 10)];
        }
      }
    }
  }

  lemma TextsAppend(a: seq<Value>, b: seq<Value>)
    ensures Texts(a + b) == Texts(a) + Texts(b)
  {
  }

  /** The segments are the non-empty ones among prefix and resource, followed by the
      texts of the truthy extra parts, in their order. */
  lemma {:induction false} SegmentsInOrder(c: Config, parts: seq<Value>)
    ensures Segments(c, parts) ==
      (if c.prefix != "" then [c.prefix] else []) +
      (if c.resource != "" then [c.resource] else []) +
      Texts(TruthyOnly(parts))
  {
    var fixed := [Str(c.prefix), Str(c.resource)];
    TruthyOnlyAppend(fixed, parts);
    assert TruthyOnly(fixed) == (if c.prefix != "" then [Str(c.prefix)] else []) +
                                (if c.resource != "" then [Str(c.resource)] else []) by {
      assert fixed[1..] == [Str(c.resource)];
      assert fixed[1..][1..] == [];
    }
    TextsAppend(TruthyOnly(fixed), TruthyOnly(parts));
  }

  /** No segment is empty, unless an extra part is an array (which may convert to ""). */
  lemma {:induction false} SegmentsNonEmpty(c: Config, parts: seq<Value>)
    requires forall v :: v in parts ==> !v.Arr?
    ensures forall s :: s in Segments(c, parts) ==> s != ""
  {
    var kept := TruthyOnly([Str(c.prefix), Str(c.resource)] + parts);
    TruthyOnlyMembers([Str(c.prefix), Str(c.resource)] + parts);
    forall s | s in Segments(c, parts) ensures s != "" {
      var i :| 0 <= i < |kept| && Texts(kept)[i] == s;
      assert kept[i] in kept;
      TextOfTruthy(kept[i]);
    }
  }

  /** The path of an endpoint consists of the truthy segments among prefix, resource and
      the extra parts, in that order; none of them is empty unless an extra part is an
      array that converts to ""; the host is kept as it is. When no segment contains a
      slash, splitting the path at "/" gives exactly these segments back. */
  lemma {:induction false} EndpointShape(c: Config, parts: seq<Value>)
    ensures Segments(c, parts) ==
      (if c.prefix != "" then [c.prefix] else []) +
      (if c.resource != "" then [c.resource] else []) +
      Texts(TruthyOnly(parts))
    ensures forall v :: v in TruthyOnly(parts) <==> v in parts && Truthy(v)
    ensures (forall v :: v in parts ==> !v.Arr?) ==> forall s :: s in Segments(c, parts) ==> s != ""
    ensures Endpoint(c, parts)[..|c.host| + 1] == c.host + "/"
    ensures Segments(c, parts) != [] && (forall s :: s in Segments(c, parts) ==> '/' !in s) ==>
      Split(Endpoint(c, parts)[|c.host| + 1..], '/') == Segments(c, parts)
  {
    SegmentsInOrder(c, parts);
    TruthyOnlyMembers(parts);
    if forall v :: v in parts ==> !v.Arr? {
      SegmentsNonEmpty(c, parts);
    }
    var path := Join("/", Segments(c, parts));
    assert Endpoint(c, parts) == c.host + "/" + path;
    assert Endpoint(c, parts)[|c.host| + 1..] == path;
    if Segments(c, parts) != [] && (forall s :: s in Segments(c, parts) ==> '/' !in s) {
      SplitJoin(Segments(c, parts), '/');
    }
  }

  /** With a truthy key value the keyed endpoint is the base endpoint with the value's
      text appended as one more path component; with a falsy one it is the base endpoint. */
  lemma {:induction false} EndpointWithKeyAppends(c: Config, e: Entity)
    ensures !Truthy(Lookup(e, c.key)) ==> EndpointWithKey(c, e) == Endpoint(c, [])
    ensures Truthy(Lookup(e, c.key)) ==>
      Segments(c, [Lookup(e, c.key)]) == Segments(c, []) + [ToText(Lookup(e, c.key))]
    ensures Truthy(Lookup(e, c.key)) ==>
      EndpointWithKey(c, e) ==
        Endpoint(c, []) + (if Segments(c, []) == [] then "" else "/") + ToText(Lookup(e, c.key))
  {
    var fixed := [Str(c.prefix), Str(c.resource)];
    var v := Lookup(e, c.key);
    TruthyOnlyAppend(fixed, [v]);
    assert fixed + [] == fixed;
    assert [v][1..] == [];
    if Truthy(v) {
      assert Segments(c, [v]) == Segments(c, []) + [ToText(v)];
      JoinSnoc("/", Segments(c, []), ToText(v));
    } else {
      assert TruthyOnly(fixed + [v]) == TruthyOnly(fixed + []);
    }
  }

  // ---------------------------------------------------------------------------------
  // Resource naming

  function LowerChar(ch: char): char {
    if 'A' <= ch <= 'Z' then (ch as int + 32) as char else ch
  }

  /** `toLowerCase` on the ASCII letters. */
  function Lower(s: string): string {
    seq(|s|, i requires 0 <= i < |s| => LowerChar(s[i]))
  }

  /** `getResource`: the pluralized, lower-cased type name; the pluralizer is a parameter. */
  function Resource(typeName: string, pluralize: string -> string): string {
    pluralize(Lower(typeName))
  }

  /** Type names that differ only in letter case share a resource noun, and lower-casing
      leaves no upper-case ASCII letter behind. */
  lemma {:induction false} ResourceIgnoresCase(a: string, b: string, pluralize: string -> string)
    requires |a| == |b|
    requires forall i :: 0 <= i < |a| ==> LowerChar(a[i]) == LowerChar(b[i])
    ensures Resource(a, pluralize) == Resource(b, pluralize)
    ensures forall ch :: ch in Lower(a) ==> !('A' <= ch <= 'Z')
  {
    assert Lower(a) == Lower(b);
  }

  // ---------------------------------------------------------------------------------
  // The model's status

  /** `isNew`: the key attribute is falsy; reading it from a null entity is a TypeError. */
  function IsNew(s: State, key: string): Result<bool> {
    if s.entity.None? then Err(NullReference) else Ok(!Truthy(Lookup(s.entity.value, key)))
  }

  /** `checkAction`: a destroyed model refuses the action. */
  function CheckAction(s: State): Option<Error> {
    if s.destroyed then Some(ActionNotAllowed) else None
  }

  /** `destroy`: freezes the model. */
  function Destroy(s: State): State {
    s.(destroyed := true)
  }

  // ---------------------------------------------------------------------------------
  // Entity and dirty list

  /** The assignment `model[name] = v`. With an accessor installed it runs the setter:
      a truthy key is refused, anything else is written to the entity and the name is
      pushed onto the dirty list. Without one it only adds a plain property to the model
      object, which neither the entity nor the dirty list sees. */
  function Write(s: State, key: string, name: string, v: Value): Outcome {
    if name !in s.accessors then Outcome(s, None)
    else if s.entity.None? then Outcome(s, Some(NullReference))
    else if name == key && Truthy(Lookup(s.entity.value, name)) then Outcome(s, Some(CannotUpdateKey))
    else Outcome(s.(entity := Some(s.entity.value[name := v]), dirty := s.dirty + [name]), None)
  }

  /** A run of assignments, stopping at the first one that throws. */
  ghost function WriteAll(s: State, key: string, ws: Record): Outcome
    decreases |ws|
  {
    if ws == [] then Outcome(s, None)
    else
      var o := Write(s, key, ws[0].name, ws[0].value);
      if o.error.Some? then o else WriteAll(o.state, key, ws[1..])
  }

  lemma {:induction false} ToMapCons(f: Field, r: Record)
    ensures ToMap([f] + r) == map[f.name := f.value] + ToMap(r)
  {
    if r != [] {
      var front := r[..|r| - 1];
      assert ([f] + r)[..|r|] == [f] + front;
      ToMapCons(f, front);
    }
  }

  /** Assignments to non-key attributes that have accessors all succeed; the entity then
      holds the written values (the last one for a repeated name) and the dirty list has
      grown by exactly the written names, in order, repeats included. */
  lemma {:induction false} WritesTracked(s: State, key: string, ws: Record)
    decreases |ws|
    requires s.entity.Some?
    requires forall i :: 0 <= i < |ws| ==> ws[i].name in s.accessors && ws[i].name != key
    ensures var o := WriteAll(s, key, ws);
      && o.error.None?
      && o.state.entity == Some(s.entity.value + ToMap(ws))
      && o.state.dirty == s.dirty + Names(ws)
      && o.state.accessors == s.accessors
      && o.state.destroyed == s.destroyed
  {
    if ws == [] {
      assert s.entity.value + ToMap(ws) == s.entity.value;
      assert s.dirty + Names(ws) == s.dirty;
    } else {
      var o := Write(s, key, ws[0].name, ws[0].value);
      WritesTracked(o.state, key, ws[1..]);
      ToMapCons(ws[0], ws[1..]);
      assert s.entity.value[ws[0].name := ws[0].value] + ToMap(ws[1..]) ==
             s.entity.value + (map[ws[0].name := ws[0].value] + ToMap(ws[1..]));
      assert [ws[0]] + ws[1..] == ws;
      assert Names(ws) == [ws[0].name] + Names(ws[1..]);
    }
  }

  /** While the key attribute is falsy, assignments through accessors succeed whatever
      name they write, the key included: as long as every assignment to the key but
      the last one writes a falsy value, the entity holds the written values and the
      dirty list has grown by exactly the written names, in order. */
  lemma {:induction false} WritesWhileKeyFalsy(s: State, key: string, ws: Record)
    decreases |ws|
    requires s.entity.Some? && !Truthy(Lookup(s.entity.value, key))
    requires forall i :: 0 <= i < |ws| ==> ws[i].name in s.accessors
    requires forall i :: 0 <= i < |ws| - 1 && ws[i].name == key ==> !Truthy(ws[i].value)
    ensures var o := WriteAll(s, key, ws);
      && o.error.None?
      && o.state.entity == Some(s.entity.value + ToMap(ws))
      && o.state.dirty == s.dirty + Names(ws)
      && o.state.accessors == s.accessors
      && o.state.destroyed == s.destroyed
  {
    if ws == [] {
      assert s.entity.value + ToMap(ws) == s.entity.value;
      assert s.dirty + Names(ws) == s.dirty;
    } else {
      var o := Write(s, key, ws[0].name, ws[0].value);
      var rest := ws[1..];
      if rest == [] {
        assert WriteAll(s, key, ws) == WriteAll(o.state, key, rest);
        assert ToMap(ws) == map[ws[0].name := ws[0].value] by {
          assert ws[..0] == [];
        }
        assert Names(ws) == [ws[0].name];
        assert s.entity.value[ws[0].name := ws[0].value] == s.entity.value + map[ws[0].name := ws[0].value];
      } else {
        forall i | 0 <= i < |rest| - 1 && rest[i].name == key ensures !Truthy(rest[i].value) {
          assert rest[i] == ws[i + 1];
        }
        WritesWhileKeyFalsy(o.state, key, rest);
        ToMapCons(ws[0], rest);
        assert s.entity.value[ws[0].name := ws[0].value] + ToMap(rest) ==
               s.entity.value + (map[ws[0].name := ws[0].value] + ToMap(rest));
        assert [ws[0]] + rest == ws;
        assert Names(ws) == [ws[0].name] + Names(rest);
      }
    }
  }

  /** Once the key attribute is truthy, no run of assignments changes it: an assignment
      to it throws "cannot update key" (when it has an accessor) and nothing else fails. */
  lemma {:induction false} KeyImmutable(s: State, key: string, ws: Record)
    decreases |ws|
    requires s.entity.Some? && Truthy(Lookup(s.entity.value, key))
    ensures var o := WriteAll(s, key, ws);
      && o.state.entity.Some?
      && Lookup(o.state.entity.value, key) == Lookup(s.entity.value, key)
      && (o.error.Some? <==> key in s.accessors && key in Names(ws))
      && (o.error.Some? ==> o.error == Some(CannotUpdateKey))
  {
    if ws != [] {
      var o := Write(s, key, ws[0].name, ws[0].value);
      KeyImmutable(o.state, key, ws[1..]);
      assert Names(ws) == [ws[0].name] + Names(ws[1..]);
    }
  }

  /** One step of `updateEntity`: an already truthy key is skipped; otherwise an accessor
      is installed when the entity lacks the name (which a frozen model refuses), and the
      value is written through it. */
  function MergeField(s: State, key: string, f: Field): Outcome {
    if s.entity.None? then Outcome(s, Some(NullReference))
    else if Skipped(s.entity.value, key, f) then Outcome(s, None)
    else if f.name in s.entity.value then Write(s, key, f.name, f.value)
    else if s.destroyed then Outcome(s, Some(FrozenModel))
    else Write(s.(accessors := s.accessors + {f.name}), key, f.name, f.value)
  }

  /** `updateEntity(model, data)`: the fields of `data` in order, stopping at the first error. */
  function Merge(s: State, key: string, data: Record): Outcome
    decreases |data|
  {
    if data == [] then Outcome(s, None)
    else
      var o := MergeField(s, key, data[0]);
      if o.error.Some? then o else Merge(o.state, key, data[1..])
  }

  /** The fields of `data` a merge into entity `e` assigns: all but an already truthy key. */
  function Assigned(e: Entity, key: string, data: Record): Record {
    if data == [] then []
    else if Skipped(e, key, data[0]) then Assigned(e, key, data[1..])
    else [data[0]] + Assigned(e, key, data[1..])
  }

  lemma {:induction false} AssignedKeyOnly(e: Entity, e': Entity, key: string, data: Record)
    requires Truthy(Lookup(e, key)) == Truthy(Lookup(e', key)) || key !in Names(data)
    ensures Assigned(e, key, data) == Assigned(e', key, data)
  {
    if data != [] {
      assert Names(data) == [data[0].name] + Names(data[1..]);
      AssignedKeyOnly(e, e', key, data[1..]);
    }
  }

  /** The assigned fields are those of the object that are not skipped, in order. */
  lemma {:induction false} AssignedFields(e: Entity, key: string, data: Record)
    ensures forall f :: f in Assigned(e, key, data) <==> f in data && !Skipped(e, key, f)
  {
    if data != [] {
      AssignedFields(e, key, data[1..]);
      assert data == [data[0]] + data[1..];
    }
  }

  lemma {:induction false} AssignedDistinct(e: Entity, key: string, data: Record)
    requires Distinct(data)
    ensures Distinct(Assigned(e, key, data))
    ensures forall n :: n in Names(Assigned(e, key, data)) ==> n in Names(data)
  {
    if data != [] {
      DistinctTail(data);
      AssignedDistinct(e, key, data[1..]);
      var rest := Assigned(e, key, data[1..]);
      assert Names(data) == [data[0].name] + Names(data[1..]);
      if !Skipped(e, key, data[0]) {
        DistinctCons(data[0], rest);
        assert Names([data[0]] + rest) == [data[0].name] + Names(rest);
      }
    }
  }

  /** Into an entity whose key is truthy, a merge assigns every name of the object but
      the key. */
  lemma {:induction false} AssignedNames(e: Entity, key: string, data: Record)
    requires Truthy(Lookup(e, key))
    ensures forall n :: n in Names(Assigned(e, key, data)) <==> n in Names(data) && n != key
  {
    if data != [] {
      AssignedNames(e, key, data[1..]);
      assert Names(data) == [data[0].name] + Names(data[1..]);
      if !Skipped(e, key, data[0]) {
        var rest := Assigned(e, key, data[1..]);
        assert Names([data[0]] + rest) == [data[0].name] + Names(rest);
      }
    }
  }

  /** A merge, whether it succeeds or not, neither freezes nor thaws the model. */
  lemma {:induction false} MergeKeepsDestroyed(s: State, key: string, data: Record)
    decreases |data|
    ensures Merge(s, key, data).state.destroyed == s.destroyed
  {
    if data != [] {
      MergeKeepsDestroyed(MergeField(s, key, data[0]).state, key, data[1..]);
    }
  }

  /** A field the merge skips: the key, while the key is already truthy. */
  predicate Skipped(e: Entity, key: string, f: Field) {
    f.name == key && Truthy(Lookup(e, key))
  }

  /** A frozen model accepts a merge only of fields it skips or already has. */
  ghost predicate FrozenSafe(s: State, key: string, data: Record)
    requires s.entity.Some?
  {
    s.destroyed ==> forall i :: 0 <= i < |data| ==>
      data[i].name in s.entity.value || Skipped(s.entity.value, key, data[i])
  }

  lemma DistinctTail(data: Record)
    requires data != [] && Distinct(data)
    ensures Distinct(data[1..]) && data[0].name !in Names(data[1..])
  {
  }

  lemma DistinctCons(f: Field, r: Record)
    requires Distinct(r) && f.name !in Names(r)
    ensures Distinct([f] + r)
  {
    forall i, j | 0 <= i < j < |[f] + r| ensures ([f] + r)[i].name != ([f] + r)[j].name {
      if i == 0 {
        assert Names(r)[j - 1] == r[j - 1].name;
      }
    }
  }

  /** A field that is not skipped is written through the setter, installing its accessor. */
  lemma MergeFieldWrites(s: State, key: string, f: Field)
    requires Consistent(s) && s.entity.Some? && !Skipped(s.entity.value, key, f)
    requires s.destroyed ==> f.name in s.entity.value
    ensures MergeField(s, key, f) ==
      Outcome(s.(entity := Some(s.entity.value[f.name := f.value]), dirty := s.dirty + [f.name],
                 accessors := s.accessors + {f.name}), None)
    ensures Consistent(MergeField(s, key, f).state)
  {
    if f.name in s.entity.value {
      assert s.accessors + {f.name} == s.accessors;
    }
  }

  /** `updateEntity` on a consistent model with an entity, given an object (distinct
      names) whose every field either is skipped or, when the model is frozen, names an
      existing attribute: it succeeds; the entity is the old one overridden by the
      assigned fields (every field but an already truthy key); the dirty list grows by
      the assigned names in the object's order; accessors are installed for them. */
  lemma {:induction false} MergeAssigns(s: State, key: string, data: Record)
    decreases |data|
    requires Consistent(s) && s.entity.Some? && Distinct(data) && FrozenSafe(s, key, data)
    ensures var o := Merge(s, key, data);
      var written := Assigned(s.entity.value, key, data);
      && o.error.None?
      && Consistent(o.state)
      && o.state.entity == Some(s.entity.value + ToMap(written))
      && o.state.dirty == s.dirty + Names(written)
      && o.state.accessors == s.accessors + (set f | f in written :: f.name)
      && o.state.destroyed == s.destroyed
  {
    var e := s.entity.value;
    if data == [] {
      assert e + ToMap([]) == e;
      assert s.dirty + Names([]) == s.dirty;
      assert s.accessors + (set f: Field | f in [] :: f.name) == s.accessors;
    } else {
      var f, rest := data[0], data[1..];
      DistinctTail(data);
      assert FrozenSafe(s, key, rest) by {
        if s.destroyed {
          forall i | 0 <= i < |rest| ensures rest[i].name in e || Skipped(e, key, rest[i]) {
            assert rest[i] == data[i + 1];
          }
        }
      }
      if Skipped(e, key, f) {
        MergeAssigns(s, key, rest);
      } else {
        MergeFieldWrites(s, key, f);
        var s1 := MergeField(s, key, f).state;
        var e1 := e[f.name := f.value];
        assert s1.entity == Some(e1);
        assert Truthy(Lookup(e1, key)) == Truthy(Lookup(e, key)) || key !in Names(rest);
        assert FrozenSafe(s1, key, rest) by {
          if s.destroyed {
            forall i | 0 <= i < |rest| ensures rest[i].name in e1 || Skipped(e1, key, rest[i]) {
              assert rest[i] == data[i + 1];
              assert Names(rest)[i] == rest[i].name;
            }
          }
        }
        AssignedKeyOnly(e1, e, key, rest);
        MergeAssigns(s1, key, rest);
        AssignedCons(e, key, f, rest);
        PrependAssigned(s, f, Assigned(e, key, rest));
      }
    }
  }

  lemma AssignedCons(e: Entity, key: string, f: Field, rest: Record)
    requires !Skipped(e, key, f)
    ensures Assigned(e, key, [f] + rest) == [f] + Assigned(e, key, rest)
  {
    assert ([f] + rest)[1..] == rest;
  }

  /** Assigning one field and then a run of fields is assigning the whole run. */
  lemma PrependAssigned(s: State, f: Field, tail: Record)
    requires s.entity.Some?
    ensures s.entity.value[f.name := f.value] + ToMap(tail) == s.entity.value + ToMap([f] + tail)
    ensures s.dirty + [f.name] + Names(tail) == s.dirty + Names([f] + tail)
    ensures s.accessors + {f.name} + (set g | g in tail :: g.name) ==
            s.accessors + (set g | g in [f] + tail :: g.name)
  {
    ToMapCons(f, tail);
    assert Names([f] + tail) == [f.name] + Names(tail);
  }

  /** `updateEntity` read attribute by attribute: a field of the object is written
      unless it is the key and the key was already truthy, in which case the key keeps
      its value; an attribute the object does not name keeps its value. */
  lemma MergeAttributes(s: State, key: string, data: Record)
    requires Consistent(s) && s.entity.Some? && Distinct(data) && FrozenSafe(s, key, data)
    ensures var o := Merge(s, key, data);
      && o.error.None? && o.state.entity.Some?
      && (forall i :: 0 <= i < |data| ==>
            Lookup(o.state.entity.value, data[i].name) ==
              if Skipped(s.entity.value, key, data[i]) then Lookup(s.entity.value, key) else data[i].value)
      && (forall n :: n !in Names(data) ==>
            (n in o.state.entity.value <==> n in s.entity.value) &&
            Lookup(o.state.entity.value, n) == Lookup(s.entity.value, n))
  {
    MergeAssigns(s, key, data);
    OverrideByAssigned(s.entity.value, key, data);
  }

  /** The entity a merge leaves, attribute by attribute. */
  lemma OverrideByAssigned(e: Entity, key: string, data: Record)
    requires Distinct(data)
    ensures var m := e + ToMap(Assigned(e, key, data));
      && (forall i :: 0 <= i < |data| ==>
            Lookup(m, data[i].name) == if Skipped(e, key, data[i]) then Lookup(e, key) else data[i].value)
      && (forall n :: n !in Names(data) ==> (n in m <==> n in e) && Lookup(m, n) == Lookup(e, n))
  {
    var written := Assigned(e, key, data);
    AssignedFields(e, key, data);
    AssignedDistinct(e, key, data);
    ToMapFields(written);
    forall i | 0 <= i < |data|
      ensures Lookup(e + ToMap(written), data[i].name) ==
        if Skipped(e, key, data[i]) then Lookup(e, key) else data[i].value
    {
      AssignedAt(e, key, data, written, i);
    }
  }

  lemma AssignedAt(e: Entity, key: string, data: Record, written: Record, i: nat)
    requires i < |data|
    requires forall f :: f in written <==> f in data && !Skipped(e, key, f)
    requires forall n :: n in ToMap(written) <==> n in Names(written)
    requires forall k :: 0 <= k < |written| ==> written[k].name in ToMap(written) && ToMap(written)[written[k].name] == written[k].value
    ensures Lookup(e + ToMap(written), data[i].name) ==
      if Skipped(e, key, data[i]) then Lookup(e, key) else data[i].value
  {
    if !Skipped(e, key, data[i]) {
      assert data[i] in written;
      var k :| 0 <= k < |written| && written[k] == data[i];
    } else {
      var names := Names(written);
      forall k | 0 <= k < |names| ensures names[k] != data[i].name {
        assert names[k] == written[k].name;
        assert written[k] in written;
      }
      assert data[i].name !in names;
    }
  }

  /** `setEntity(model, rec)`: a frozen model refuses the assignment to `_entity`; an
      absent record leaves the model without an entity and its dirty list as it was; a
      present one becomes the entity, its names become the dirty list, and accessors are
      installed for them. */
  function Load(s: State, rec: Option<Record>): Outcome {
    if s.destroyed then Outcome(s, Some(FrozenModel))
    else match rec
      case None => Outcome(s.(entity := None), None)
      case Some(r) =>
        Outcome(s.(entity := Some(ToMap(r)), dirty := Names(r),
                   accessors := s.accessors + (set n | n in Names(r))), None)
  }

  /** After loading an object the entity has exactly its names as attributes and, the
      names being distinct, deep-equals it; every loaded name counts as dirty; loading
      null keeps the dirty list; consistency is kept. */
  lemma LoadRecord(s: State, rec: Option<Record>)
    requires !s.destroyed
    ensures var o := Load(s, rec);
      && o.error.None?
      && o.state.destroyed == s.destroyed
      && (Consistent(s) ==> Consistent(o.state))
      && (rec.None? ==> o.state.entity.None? && o.state.dirty == s.dirty)
      && (rec.Some? ==>
            && o.state.entity.Some?
            && o.state.dirty == Names(rec.value)
            && (forall n :: n in o.state.entity.value <==> n in Names(rec.value))
            && (Distinct(rec.value) ==> forall i :: 0 <= i < |rec.value| ==>
                  Lookup(o.state.entity.value, rec.value[i].name) == rec.value[i].value))
  {
    if rec.Some? {
      ToMapFields(rec.value);
    }
  }

  /** A model loaded with an object is new exactly when no field of the object names
      the key with a truthy value. */
  lemma IsNewAfterLoad(s: State, key: string, r: Record)
    requires !s.destroyed && Distinct(r)
    ensures IsNew(Load(s, Some(r)).state, key) ==
      Ok(forall i :: 0 <= i < |r| && r[i].name == key ==> !Truthy(r[i].value))
  {
    ToMapFields(r);
    if key !in ToMap(r) {
      assert forall i :: 0 <= i < |r| ==> r[i].name != key by {
        forall i | 0 <= i < |r| ensures r[i].name != key {
          assert Names(r)[i] == r[i].name;
        }
      }
    } else {
      assert key in Names(r);
    }
  }

  // ---------------------------------------------------------------------------------
  // Collections

  /** The record a document supplies to a model's constructor: an object, or none. */
  function AsRecord(doc: Value): Option<Record> {
    if doc.Obj? then Some(doc.fields) else None
  }

  /** `documents.map(doc => new resourceMapper(doc))`, with the constructor a parameter. */
  function MapDocuments<T>(make: Option<Record> -> T, docs: seq<Value>): (models: seq<T>)
    ensures |models| == |docs|
    ensures forall i :: 0 <= i < |docs| ==> models[i] == make(AsRecord(docs[i]))
  {
    if docs == [] then [] else [make(AsRecord(docs[0]))] + MapDocuments(make, docs[1..])
  }

  /** `collect(resourceMapper, documents)`: anything but an array is refused; an array
      gives one model per document, in the same order, none merged or dropped. */
  function Collect<T>(make: Option<Record> -> T, documents: Value): (r: Result<seq<T>>)
    requires documents.Arr? ==> forall d :: d in documents.items ==> d.Obj? || d.Null? || d.Undefined?
    ensures r.Ok? <==> documents.Arr?
    ensures r.Err? ==> r.error == NotAnArray
    ensures r.Ok? ==> |r.value| == |documents.items|
    ensures r.Ok? ==> forall i :: 0 <= i < |r.value| ==> r.value[i] == make(AsRecord(documents.items[i]))
  {
    if !documents.Arr? then Err(NotAnArray) else Ok(MapDocuments(make, documents.items))
  }
}
