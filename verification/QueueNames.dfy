/** The temporary queue names in an inception's configuration, and the queues and assignments that
    follow from it. */
module QueueNames {
  import opened Wrappers
  import opened JsonValues

  /** Whose queues they are. */
  datatype Scope = Scope(namespace: string, blueGreenRef: string, uid: string, inceptionPoint: string)

  datatype Role = Duplicator | Splitter | Combiner | OtherRole

  /** The part of a role's configuration that names queues: the base queue, the two temporary ones,
      and the environment variables that hold them. */
  datatype RoleConfig = RoleConfig(
    base: Option<string>,
    green: Option<string>,
    blue: Option<string>,
    greenEnv: Option<string>,
    blueEnv: Option<string>)

  datatype Config = Config(
    duplicator: Option<RoleConfig>,
    splitter: Option<RoleConfig>,
    combiner: Option<RoleConfig>,
    shadowSuffix: Option<string>)

  /** What the model takes from elsewhere: the derivation of a temporary name from scope, role, slot
      and identifier, the name of a shadow queue from queue and suffix, and the reading of a
      configuration, which falls back to the default one. */
  datatype Naming = Naming(
    derived: (Scope, string, string, Option<string>) -> string,
    shadow: (string, string) -> string,
    parsed: Json -> Config)

  function ReadText(v: Json, key: string): Option<string> {
    if Get(v, key).String? then Some(Get(v, key).text) else None
  }

  function ReadRole(v: Json, base: string, green: string, blue: string, greenEnv: string, blueEnv: string): Option<RoleConfig> {
    if v.Object? then Some(RoleConfig(ReadText(v, base), ReadText(v, green), ReadText(v, blue), ReadText(v, greenEnv), ReadText(v, blueEnv)))
    else None
  }

  /** A well-typed configuration, as far as the model needs it. */
  function ReadConfig(v: Json): Config {
    Config(
      ReadRole(Get(v, "duplicator"), "inputQueue", "greenInputQueue", "blueInputQueue", "greenInputQueueEnvVar", "blueInputQueueEnvVar"),
      ReadRole(Get(v, "splitter"), "inputQueue", "greenInputQueue", "blueInputQueue", "greenInputQueueEnvVar", "blueInputQueueEnvVar"),
      ReadRole(Get(v, "combiner"), "outputQueue", "greenOutputQueue", "blueOutputQueue", "greenOutputQueueEnvVar", "blueOutputQueueEnvVar"),
      ReadText(Get(v, "shadowQueue"), "suffix"))
  }

  // ---------------------------------------------------------------- rewriting

  /** set_nested_string: only below objects that are there, never creating one on the way. */
  function SetNested(v: Json, path: seq<string>, text: string): Json
    decreases |path|
  {
    if path == [] || !v.Object? then v
    else if |path| == 1 then Object(v.members[path[0] := String(text)])
    else if path[0] in v.members then Object(v.members[path[0] := SetNested(v.members[path[0]], path[1..], text)])
    else v
  }

  /** temporary_queue_identifier. */
  function Identifier(v: Json, role: string): Option<string> {
    var id := Get(Get(v, role), "temporaryQueueIdentifier");
    if id.String? then Some(id.text) else None
  }

  /** A place for a temporary queue name, and the name of the slot in derived names. */
  datatype Place = Place(role: string, key: string, slot: string)

  const PLACES := [
    Place("duplicator", "greenInputQueue", "green-input"),
    Place("duplicator", "blueInputQueue", "blue-input"),
    Place("splitter", "greenInputQueue", "green-input"),
    Place("splitter", "blueInputQueue", "blue-input"),
    Place("combiner", "greenOutputQueue", "green-output"),
    Place("combiner", "blueOutputQueue", "blue-output")]

  function NameFor(n: Naming, scope: Scope, original: Json, p: Place): string {
    n.derived(scope, p.role, p.slot, Identifier(original, p.role))
  }

  /** The places in order, with names that follow from `original`. */
  function SetPlaces(n: Naming, scope: Scope, original: Json, v: Json, places: seq<Place>): Json
    decreases |places|
  {
    if places == [] then v
    else SetPlaces(n, scope, original, SetNested(v, [places[0].role, places[0].key], NameFor(n, scope, original, places[0])), places[1..])
  }

  /** rewrite_queue_temp_names. */
  function Rewritten(n: Naming, scope: Scope, v: Json): Json {
    SetPlaces(n, scope, v, v, PLACES)
  }

  predicate PlacedIn(places: seq<Place>, role: string, key: string) {
    exists p :: p in places && p.role == role && p.key == key
  }

  /** The same objects, member names and values but for the given places. */
  predicate SameElsewhere(a: Json, b: Json, places: seq<Place>) {
    && (a.Object? <==> b.Object?)
    && (!a.Object? ==> a == b)
    && (a.Object? ==> a.members.Keys == b.members.Keys && forall role | role in a.members :: SameRole(role, a.members[role], b.members[role], places))
  }

  predicate SameRole(role: string, a: Json, b: Json, places: seq<Place>) {
    && (a.Object? <==> b.Object?)
    && (!a.Object? ==> a == b)
    && (a.Object? ==>
          && (forall k | k in a.members.Keys + b.members.Keys && !PlacedIn(places, role, k) ::
                k in a.members && k in b.members && a.members[k] == b.members[k])
          && (forall k | k in a.members :: k in b.members))
  }

  lemma SetNestedTwo(v: Json, role: string, key: string, text: string)
    ensures SetNested(v, [role, key], text) ==
            if v.Object? && role in v.members && v.members[role].Object?
            then Object(v.members[role := Object(v.members[role].members[key := String(text)])]) else v
  {
    assert [role, key][1..] == [key];
    if v.Object? && role in v.members && !v.members[role].Object? {
      assert v.members[role := v.members[role]] == v.members;
    }
  }

  lemma SetElsewhere(v: Json, p: Place, text: string, places: seq<Place>)
    requires p in places
    ensures SameElsewhere(v, SetNested(v, [p.role, p.key], text), places)
  {
    SetNestedTwo(v, p.role, p.key, text);
    assert PlacedIn(places, p.role, p.key);
  }

  lemma ElsewhereThen(a: Json, b: Json, c: Json, places: seq<Place>, more: seq<Place>)
    requires SameElsewhere(a, b, places) && SameElsewhere(b, c, more) && forall p | p in more :: p in places
    ensures SameElsewhere(a, c, places)
  {
    if a.Object? {
      forall role | role in a.members
        ensures SameRole(role, a.members[role], c.members[role], places)
      {
        RoleThen(role, a.members[role], b.members[role], c.members[role], places, more);
      }
    }
  }

  lemma RoleThen(role: string, a: Json, b: Json, c: Json, places: seq<Place>, more: seq<Place>)
    requires SameRole(role, a, b, places) && SameRole(role, b, c, more) && forall p | p in more :: p in places
    ensures SameRole(role, a, c, places)
  {
    assert forall k | PlacedIn(more, role, k) :: PlacedIn(places, role, k);
  }

  lemma {:induction false} SetPlacesElsewhere(n: Naming, scope: Scope, original: Json, v: Json, places: seq<Place>)
    ensures SameElsewhere(v, SetPlaces(n, scope, original, v, places), places)
    decreases |places|
  {
    if places != [] {
      var text := NameFor(n, scope, original, places[0]);
      var next := SetNested(v, [places[0].role, places[0].key], text);
      SetElsewhere(v, places[0], text, places);
      SetPlacesElsewhere(n, scope, original, next, places[1..]);
      ElsewhereThen(v, next, SetPlaces(n, scope, original, next, places[1..]), places, places[1..]);
    }
  }

  predicate Distinct(places: seq<Place>) {
    forall i, j | 0 <= i < j < |places| :: places[i].role != places[j].role || places[i].key != places[j].key
  }

  lemma {:induction false} SetPlacesAt(n: Naming, scope: Scope, original: Json, v: Json, places: seq<Place>, i: nat)
    requires i < |places| && Distinct(places) && Get(v, places[i].role).Object?
    ensures
      var r := Get(SetPlaces(n, scope, original, v, places), places[i].role);
      r.Object? && places[i].key in r.members && r.members[places[i].key] == String(NameFor(n, scope, original, places[i]))
    decreases |places|
  {
    var p := places[0];
    var next := SetNested(v, [p.role, p.key], NameFor(n, scope, original, p));
    SetNestedTwo(v, p.role, p.key, NameFor(n, scope, original, p));
    if i > 0 {
      SetPlacesAt(n, scope, original, next, places[1..], i - 1);
    } else {
      SetPlacesElsewhere(n, scope, original, next, places[1..]);
      assert !PlacedIn(places[1..], p.role, p.key);
    }
  }

  lemma PlacesDistinct()
    ensures Distinct(PLACES)
  {
    assert |"duplicator"| == 10 && |"splitter"| == |"combiner"| == 8 && "splitter"[0] != "combiner"[0];
    assert |"greenInputQueue"| == 15 && |"blueInputQueue"| == 14 && |"greenOutputQueue"| == 16 && |"blueOutputQueue"| == 15;
  }

  /** After rewriting, every place below an object holds the name derived for it, and nothing else
      has changed: neither an identifier nor any other member. */
  lemma RewrittenIs(n: Naming, scope: Scope, v: Json)
    ensures SameElsewhere(v, Rewritten(n, scope, v), PLACES)
    ensures forall i | 0 <= i < |PLACES| && Get(v, PLACES[i].role).Object? ::
              Get(Get(Rewritten(n, scope, v), PLACES[i].role), PLACES[i].key) == String(NameFor(n, scope, v, PLACES[i]))
  {
    SetPlacesElsewhere(n, scope, v, v, PLACES);
    PlacesDistinct();
    forall i | 0 <= i < |PLACES| && Get(v, PLACES[i].role).Object?
      ensures Get(Get(Rewritten(n, scope, v), PLACES[i].role), PLACES[i].key) == String(NameFor(n, scope, v, PLACES[i]))
    {
      SetPlacesAt(n, scope, v, v, PLACES, i);
    }
  }

  lemma IdentifiersKept(n: Naming, scope: Scope, v: Json, role: string)
    ensures Identifier(Rewritten(n, scope, v), role) == Identifier(v, role)
    ensures Get(Rewritten(n, scope, v), role).Object? <==> Get(v, role).Object?
  {
    RewrittenIs(n, scope, v);
    NotAPlace(role);
  }

  lemma NotAPlace(role: string)
    ensures !PlacedIn(PLACES, role, "temporaryQueueIdentifier")
  {
    forall p | p in PLACES
      ensures p.key != "temporaryQueueIdentifier"
    {
      assert |"temporaryQueueIdentifier"| == 24 && |p.key| <= 16;
    }
  }

  /** Setting places that already hold their names changes nothing. */
  lemma {:induction false} SetPlacesAgain(n: Naming, scope: Scope, original: Json, v: Json, places: seq<Place>)
    requires forall i | 0 <= i < |places| && Get(v, places[i].role).Object? ::
               var r := Get(v, places[i].role);
               places[i].key in r.members && r.members[places[i].key] == String(NameFor(n, scope, original, places[i]))
    ensures SetPlaces(n, scope, original, v, places) == v
    decreases |places|
  {
    if places != [] {
      var p := places[0];
      SetNestedTwo(v, p.role, p.key, NameFor(n, scope, original, p));
      if Get(v, p.role).Object? {
        var r := v.members[p.role];
        assert r.members[p.key := String(NameFor(n, scope, original, p))] == r.members;
        assert v.members[p.role := r] == v.members;
      }
      SetPlacesAgain(n, scope, original, v, places[1..]);
    }
  }

  /** Rewriting is idempotent, whatever the derived names are. */
  lemma RewriteIsIdempotent(n: Naming, scope: Scope, v: Json)
    ensures Rewritten(n, scope, Rewritten(n, scope, v)) == Rewritten(n, scope, v)
  {
    var once := Rewritten(n, scope, v);
    PlacesDistinct();
    forall i | 0 <= i < |PLACES| && Get(once, PLACES[i].role).Object?
      ensures PLACES[i].key in Get(once, PLACES[i].role).members
      ensures Get(once, PLACES[i].role).members[PLACES[i].key] == String(NameFor(n, scope, once, PLACES[i]))
    {
      IdentifiersKept(n, scope, v, PLACES[i].role);
      SetPlacesAt(n, scope, v, v, PLACES, i);
    }
    SetPlacesAgain(n, scope, once, once, PLACES);
  }

  // ---------------------------------------------------------------- what is read from a rewritten configuration

  lemma ReadPlaced(n: Naming, scope: Scope, v: Json, i: nat)
    requires i < |PLACES| && Get(v, PLACES[i].role).Object?
    ensures ReadText(Get(Rewritten(n, scope, v), PLACES[i].role), PLACES[i].key) == Some(NameFor(n, scope, v, PLACES[i]))
  {
    RewrittenIs(n, scope, v);
  }

  lemma ReadKept(n: Naming, scope: Scope, v: Json, role: string, key: string)
    requires !PlacedIn(PLACES, role, key)
    ensures ReadText(Get(Rewritten(n, scope, v), role), key) == ReadText(Get(v, role), key)
  {
    RewrittenIs(n, scope, v);
    if v.Object? && role in v.members {
      assert SameRole(role, v.members[role], Rewritten(n, scope, v).members[role], PLACES);
    }
  }

  /** Only keys of 14 to 16 characters, in three roles, are places. */
  lemma PlaceSizes(role: string, key: string)
    requires PlacedIn(PLACES, role, key)
    ensures 14 <= |key| <= 16 && (role == "duplicator" || role == "splitter" || role == "combiner")
  {
  }

  lemma KeptBySize(n: Naming, scope: Scope, v: Json, role: string, key: string)
    requires |key| < 14 || |key| > 16
    ensures ReadText(Get(Rewritten(n, scope, v), role), key) == ReadText(Get(v, role), key)
  {
    if PlacedIn(PLACES, role, key) {
      PlaceSizes(role, key);
    } else {
      ReadKept(n, scope, v, role, key);
    }
  }

  /** A role's part of a rewritten configuration, from its places and its other keys. */
  lemma RoleReads(n: Naming, scope: Scope, v: Json, i: nat, base: string, greenEnv: string, blueEnv: string)
    requires i + 1 < |PLACES| && PLACES[i].role == PLACES[i + 1].role && Get(v, PLACES[i].role).Object?
    requires |base| < 14 && |greenEnv| > 16 && |blueEnv| > 16
    ensures
      var written := Get(v, PLACES[i].role);
      ReadRole(Get(Rewritten(n, scope, v), PLACES[i].role), base, PLACES[i].key, PLACES[i + 1].key, greenEnv, blueEnv)
      == Some(RoleConfig(
           ReadText(written, base), Some(NameFor(n, scope, v, PLACES[i])), Some(NameFor(n, scope, v, PLACES[i + 1])),
           ReadText(written, greenEnv), ReadText(written, blueEnv)))
  {
    ReadPlaced(n, scope, v, i);
    ReadPlaced(n, scope, v, i + 1);
    KeptBySize(n, scope, v, PLACES[i].role, base);
    KeptBySize(n, scope, v, PLACES[i].role, greenEnv);
    KeptBySize(n, scope, v, PLACES[i].role, blueEnv);
    IdentifiersKept(n, scope, v, PLACES[i].role);
  }

  /** The name derived for a slot of a role, under the identifier that the role's configuration gives. */
  function Derived(n: Naming, scope: Scope, v: Json, role: string, slot: string): string {
    n.derived(scope, role, slot, ReadText(Get(v, role), "temporaryQueueIdentifier"))
  }

  /** A duplicator's effective configuration has the derived names, and the rest as written. */
  lemma EffectiveDuplicator(n: Naming, scope: Scope, v: Json, written: Json)
    requires written == Get(v, "duplicator") && written.Object?
    ensures ReadConfig(Rewritten(n, scope, v)).duplicator == Some(RoleConfig(
              ReadText(written, "inputQueue"),
              Some(Derived(n, scope, v, "duplicator", "green-input")), Some(Derived(n, scope, v, "duplicator", "blue-input")),
              ReadText(written, "greenInputQueueEnvVar"), ReadText(written, "blueInputQueueEnvVar")))
  {
    RoleReads(n, scope, v, 0, "inputQueue", "greenInputQueueEnvVar", "blueInputQueueEnvVar");
  }

  /** So has a splitter's. */
  lemma EffectiveSplitter(n: Naming, scope: Scope, v: Json, written: Json)
    requires written == Get(v, "splitter") && written.Object?
    ensures ReadConfig(Rewritten(n, scope, v)).splitter == Some(RoleConfig(
              ReadText(written, "inputQueue"),
              Some(Derived(n, scope, v, "splitter", "green-input")), Some(Derived(n, scope, v, "splitter", "blue-input")),
              ReadText(written, "greenInputQueueEnvVar"), ReadText(written, "blueInputQueueEnvVar")))
  {
    RoleReads(n, scope, v, 2, "inputQueue", "greenInputQueueEnvVar", "blueInputQueueEnvVar");
  }

  /** And a combiner's, with its output queues. */
  lemma EffectiveCombiner(n: Naming, scope: Scope, v: Json, written: Json)
    requires written == Get(v, "combiner") && written.Object?
    ensures ReadConfig(Rewritten(n, scope, v)).combiner == Some(RoleConfig(
              ReadText(written, "outputQueue"),
              Some(Derived(n, scope, v, "combiner", "green-output")), Some(Derived(n, scope, v, "combiner", "blue-output")),
              ReadText(written, "greenOutputQueueEnvVar"), ReadText(written, "blueOutputQueueEnvVar")))
  {
    RoleReads(n, scope, v, 4, "outputQueue", "greenOutputQueueEnvVar", "blueOutputQueueEnvVar");
  }

  /** A role that is not configured by an object is none before and after. */
  lemma EffectiveAbsent(n: Naming, scope: Scope, v: Json)
    ensures !Get(v, "duplicator").Object? ==> ReadConfig(Rewritten(n, scope, v)).duplicator == ReadConfig(v).duplicator == None
    ensures !Get(v, "splitter").Object? ==> ReadConfig(Rewritten(n, scope, v)).splitter == ReadConfig(v).splitter == None
    ensures !Get(v, "combiner").Object? ==> ReadConfig(Rewritten(n, scope, v)).combiner == ReadConfig(v).combiner == None
  {
    IdentifiersKept(n, scope, v, "duplicator");
    IdentifiersKept(n, scope, v, "splitter");
    IdentifiersKept(n, scope, v, "combiner");
  }

  lemma EffectiveSuffix(n: Naming, scope: Scope, v: Json)
    ensures ReadConfig(Rewritten(n, scope, v)).shadowSuffix == ReadText(Get(v, "shadowQueue"), "suffix")
  {
    KeptBySize(n, scope, v, "shadowQueue", "suffix");
  }
}
