/** Patching environment variables of running deployments: grouping a batch of assignments by
    deployment and container, against applying them one by one. */
module EnvPatch {
  import opened Wrappers

  /** `source` is a reference to a value held elsewhere; an update of the value leaves it. */
  datatype EnvVar = EnvVar(name: string, value: Option<string>, source: Option<string>)

  datatype Container = Container(name: string, env: seq<EnvVar>)

  datatype Identity = Identity(namespace: string, name: string)

  type Deployments = map<Identity, seq<Container>>

  datatype Target = Green | Blue | Test

  datatype Assignment = Assignment(target: Target, isEnv: bool, name: string, value: string, container: Option<string>)

  /** The deployments that the targets stand for; there may be no test deployment. */
  datatype Targets = Targets(green: Identity, blue: Identity, test: Option<Identity>)

  datatype Key = Key(id: Identity, container: Option<string>)

  function Resolved(ts: Targets, a: Assignment): Option<Identity> {
    if !a.isEnv then None
    else match a.target
      case Green => Some(ts.green)
      case Blue => Some(ts.blue)
      case Test => ts.test
  }

  // ---------------------------------------------------------------- one list of variables

  /** What a container sees under a name: the first entry. */
  function Lookup(env: seq<EnvVar>, name: string): Option<EnvVar> {
    if env == [] then None
    else if env[0].name == name then Some(env[0])
    else Lookup(env[1..], name)
  }

  function Upserted(env: seq<EnvVar>, name: string, value: string): seq<EnvVar> {
    if env == [] then [EnvVar(name, Some(value), None)]
    else if env[0].name == name then [env[0].(value := Some(value))] + env[1..]
    else [env[0]] + Upserted(env[1..], name, value)
  }

  /** A lookup result after a value, if any, was assigned. */
  function Overlaid(before: Option<EnvVar>, name: string, value: Option<string>): Option<EnvVar> {
    if value.None? then before
    else if before.None? then Some(EnvVar(name, value, None))
    else Some(before.value.(value := value))
  }

  lemma {:induction false} UpsertedLookup(env: seq<EnvVar>, name: string, value: string, n: string)
    ensures Lookup(Upserted(env, name, value), n) ==
            if n == name then Overlaid(Lookup(env, n), n, Some(value)) else Lookup(env, n)
    ensures n == name ==>
              var before := Lookup(env, n);
              Lookup(Upserted(env, name, value), n)
              == Some(EnvVar(name, Some(value), if before.Some? then before.value.source else None))
  {
    if env != [] && env[0].name != name {
      UpsertedLookup(env[1..], name, value, n);
      assert Upserted(env, name, value)[1..] == Upserted(env[1..], name, value);
    } else if env != [] {
      assert Upserted(env, name, value)[1..] == env[1..];
    }
  }

  lemma {:induction false} UpsertedAt(env: seq<EnvVar>, k: nat, name: string, value: string)
    requires k <= |env| && forall j | 0 <= j < k :: env[j].name != name
    ensures Upserted(env, name, value) == env[..k] + Upserted(env[k..], name, value)
  {
    if k > 0 {
      UpsertedAt(env[1..], k - 1, name, value);
      assert env[1..][k - 1..] == env[k..];
      assert env[..k] == [env[0]] + env[1..][..k - 1];
    }
  }

  /** upsert_env and upsert_env_var: update the first entry of that name, else append one. */
  method UpsertEnv(env: seq<EnvVar>, name: string, value: string) returns (r: seq<EnvVar>)
    ensures r == Upserted(env, name, value)
  {
    var i := 0;
    while i < |env| && env[i].name != name
      invariant 0 <= i <= |env|
      invariant forall j | 0 <= j < i :: env[j].name != name
    {
      i := i + 1;
    }
    UpsertedAt(env, i, name, value);
    if i < |env| {
      r := env[i := env[i].(value := Some(value))];
    } else {
      r := env + [EnvVar(name, Some(value), None)];
    }
  }

  // ---------------------------------------------------------------- what a batch assigns

  predicate Assigns(ts: Targets, a: Assignment, id: Identity, containers: set<Option<string>>, n: string) {
    Resolved(ts, a) == Some(id) && a.container in containers && a.name == n
  }

  /** The value that the last matching assignment of a batch gives. */
  /** An assignment reaches a deployment exactly if it is of the environment kind and its target stands for the
      deployment; any other one, and one for a missing test deployment, reaches none. */
  lemma AssignsIff(ts: Targets, a: Assignment, id: Identity, container: Option<string>, n: string)
    ensures Assigns(ts, a, id, {container}, n) <==>
            && a.isEnv && a.container == container && a.name == n
            && ((a.target == Green && id == ts.green) || (a.target == Blue && id == ts.blue)
                || (a.target == Test && ts.test == Some(id)))
  {
  }

  function LastValue(ts: Targets, batch: seq<Assignment>, id: Identity, containers: set<Option<string>>, n: string): Option<string> {
    if batch == [] then None
    else
      var a := batch[|batch| - 1];
      if Assigns(ts, a, id, containers, n) then Some(a.value)
      else LastValue(ts, batch[..|batch| - 1], id, containers, n)
  }

  /** Applied one by one, the last assignment that applies to the container wins. */
  function OneByOne(ts: Targets, batch: seq<Assignment>, id: Identity, c: string, n: string): Option<string> {
    LastValue(ts, batch, id, {None, Some(c)}, n)
  }

  /** Grouped, those that name the container win over those that name none. */
  function ByGroup(ts: Targets, batch: seq<Assignment>, id: Identity, c: string, n: string): Option<string> {
    var exact := LastValue(ts, batch, id, {Some(c)}, n);
    if exact.Some? then exact else LastValue(ts, batch, id, {None}, n)
  }

  /** Entry i names the container c, the later entry j names none, both assign the same variable of
      the same deployment, with different values, and each is the last of its kind. */
  predicate Shadows(ts: Targets, batch: seq<Assignment>, i: nat, j: nat, id: Identity, c: string, n: string) {
    && i < j < |batch|
    && Assigns(ts, batch[i], id, {Some(c)}, n) && Assigns(ts, batch[j], id, {None}, n)
    && batch[i].value != batch[j].value
    && (forall k | i < k < |batch| :: !Assigns(ts, batch[k], id, {Some(c)}, n))
    && (forall k | j < k < |batch| :: !Assigns(ts, batch[k], id, {None}, n))
  }

  lemma {:induction false} LastAt(ts: Targets, batch: seq<Assignment>, id: Identity, containers: set<Option<string>>, n: string) returns (k: int)
    ensures -1 <= k < |batch|
    ensures forall m | k < m < |batch| :: !Assigns(ts, batch[m], id, containers, n)
    ensures if k == -1 then LastValue(ts, batch, id, containers, n) == None
            else Assigns(ts, batch[k], id, containers, n) && LastValue(ts, batch, id, containers, n) == Some(batch[k].value)
  {
    if batch == [] {
      k := -1;
    } else if Assigns(ts, batch[|batch| - 1], id, containers, n) {
      k := |batch| - 1;
    } else {
      k := LastAt(ts, batch[..|batch| - 1], id, containers, n);
    }
  }

  /** The two disagree on a variable exactly when one entry shadows another. */
  lemma AgreeIff(ts: Targets, batch: seq<Assignment>, id: Identity, c: string, n: string)
    ensures OneByOne(ts, batch, id, c, n) == ByGroup(ts, batch, id, c, n)
            <==> !exists i: nat, j: nat :: Shadows(ts, batch, i, j, id, c, n)
  {
    var both := LastAt(ts, batch, id, {None, Some(c)}, n);
    var exact := LastAt(ts, batch, id, {Some(c)}, n);
    var free := LastAt(ts, batch, id, {None}, n);
    if exact >= 0 {
      assert Assigns(ts, batch[exact], id, {None, Some(c)}, n);
    }
    if free >= 0 {
      assert Assigns(ts, batch[free], id, {None, Some(c)}, n);
    }
    assert both == if exact > free then exact else free;
    if OneByOne(ts, batch, id, c, n) != ByGroup(ts, batch, id, c, n) {
      assert Shadows(ts, batch, exact, free, id, c, n);
    } else {
      forall i: nat, j: nat | Shadows(ts, batch, i, j, id, c, n)
        ensures false
      {
      }
    }
  }

  /** No variable of a target is assigned both with and without a container name. */
  predicate Unmixed(ts: Targets, batch: seq<Assignment>) {
    forall i, j | 0 <= i < |batch| && 0 <= j < |batch| && Resolved(ts, batch[i]).Some?
                  && Resolved(ts, batch[i]) == Resolved(ts, batch[j]) && batch[i].name == batch[j].name ::
      batch[i].container.None? <==> batch[j].container.None?
  }

  lemma UnmixedAgrees(ts: Targets, batch: seq<Assignment>, id: Identity, c: string, n: string)
    requires Unmixed(ts, batch)
    ensures OneByOne(ts, batch, id, c, n) == ByGroup(ts, batch, id, c, n)
  {
    AgreeIff(ts, batch, id, c, n);
  }

  // ---------------------------------------------------------------- lists of containers

  predicate Selects(target: Option<string>, c: Container) {
    target.None? || target.value == c.name
  }

  /** The same containers, with other variables. */
  predicate SameNames(a: seq<Container>, b: seq<Container>) {
    |a| == |b| && forall i | 0 <= i < |a| :: a[i].name == b[i].name
  }

  function Seen(cs: seq<Container>, i: nat, n: string): Option<EnvVar>
    requires i < |cs|
  {
    Lookup(cs[i].env, n)
  }

  /** Every container sees its variables as before, but for what `value` gives it. */
  ghost predicate Shows(before: seq<Container>, after: seq<Container>, value: (string, string) -> Option<string>) {
    && SameNames(before, after)
    && forall i: nat, n | i < |before| :: Seen(after, i, n) == Overlaid(Seen(before, i, n), n, value(before[i].name, n))
  }

  /** A list of pairs that mentions every name of the map once. */
  predicate Enumerates(pairs: seq<(string, string)>, m: map<string, string>) {
    && (forall i | 0 <= i < |pairs| :: pairs[i].0 in m && m[pairs[i].0] == pairs[i].1)
    && (forall n | n in m :: exists i :: 0 <= i < |pairs| && pairs[i].0 == n)
    && (forall i, j | 0 <= i < j < |pairs| :: pairs[i].0 != pairs[j].0)
  }

  function Given(m: map<string, string>, n: string): Option<string> {
    if n in m then Some(m[n]) else None
  }

  /** The inner loop of the patch: all pairs into one container's list. */
  method UpsertAll(env: seq<EnvVar>, pairs: seq<(string, string)>, ghost m: map<string, string>) returns (r: seq<EnvVar>)
    requires Enumerates(pairs, m)
    ensures forall n :: Lookup(r, n) == Overlaid(Lookup(env, n), n, Given(m, n))
  {
    r := env;
    var k := 0;
    while k < |pairs|
      invariant 0 <= k <= |pairs|
      invariant forall n ::
        Lookup(r, n) == if exists i :: 0 <= i < k && pairs[i].0 == n then Overlaid(Lookup(env, n), n, Given(m, n)) else Lookup(env, n)
    {
      var next := UpsertEnv(r, pairs[k].0, pairs[k].1);
      forall n
        ensures Lookup(next, n) == if exists i :: 0 <= i < k + 1 && pairs[i].0 == n then Overlaid(Lookup(env, n), n, Given(m, n)) else Lookup(env, n)
      {
        UpsertedLookup(r, pairs[k].0, pairs[k].1, n);
      }
      r := next;
      k := k + 1;
    }
  }

  function GivenTo(target: Option<string>, m: map<string, string>): (string, string) -> Option<string> {
    (c, n) => if target.None? || target.value == c then Given(m, n) else None
  }

  method PatchContainers(cs: seq<Container>, target: Option<string>, pairs: seq<(string, string)>, ghost m: map<string, string>)
    returns (r: seq<Container>)
    requires Enumerates(pairs, m)
    ensures Shows(cs, r, GivenTo(target, m))
  {
    r := cs;
    var k := 0;
    while k < |cs|
      invariant 0 <= k <= |cs| == |r|
      invariant forall i | 0 <= i < |cs| :: r[i].name == cs[i].name
      invariant forall i | k <= i < |cs| :: r[i] == cs[i]
      invariant forall i: nat, n | i < k :: Seen(r, i, n) == Overlaid(Seen(cs, i, n), n, GivenTo(target, m)(cs[i].name, n))
    {
      ghost var before := r;
      if Selects(target, cs[k]) {
        var env := UpsertAll(cs[k].env, pairs, m);
        r := r[k := cs[k].(env := env)];
      }
      assert forall i: nat, n | i < k :: Seen(r, i, n) == Seen(before, i, n);
      k := k + 1;
    }
  }

  // ---------------------------------------------------------------- the stored deployments

  /** What the groups in `done` give to a container. */
  function FromGroups(groups: map<Key, map<string, string>>, done: set<Key>, id: Identity): (string, string) -> Option<string> {
    (c, n) =>
      if Key(id, Some(c)) in done && Key(id, Some(c)) in groups && n in groups[Key(id, Some(c))] then Some(groups[Key(id, Some(c))][n])
      else if Key(id, None) in done && Key(id, None) in groups && n in groups[Key(id, None)] then Some(groups[Key(id, None)][n])
      else None
  }

  /** The keys that a batch assigns to. */
  function KeysOf(ts: Targets, batch: seq<Assignment>): set<Key> {
    if batch == [] then {}
    else
      var a := batch[|batch| - 1];
      KeysOf(ts, batch[..|batch| - 1]) + if Resolved(ts, a).Some? then {Key(Resolved(ts, a).value, a.container)} else {}
  }

  function TouchedBy(ts: Targets, batch: seq<Assignment>): set<Identity> {
    set k | k in KeysOf(ts, batch) :: k.id
  }

  /** The groups hold, for every key, the last values of the batch. */
  ghost predicate HoldsLast(ts: Targets, batch: seq<Assignment>, groups: map<Key, map<string, string>>) {
    forall id, c, n ::
      LastValue(ts, batch, id, {c}, n) == if Key(id, c) in groups then Given(groups[Key(id, c)], n) else None
  }

  ghost predicate Groups(ts: Targets, batch: seq<Assignment>, groups: map<Key, map<string, string>>) {
    groups.Keys == KeysOf(ts, batch) && HoldsLast(ts, batch, groups)
  }

  function Entries(groups: map<Key, map<string, string>>, key: Key): map<string, string> {
    if key in groups then groups[key] else map[]
  }

  /** The first loop of apply_assignments. */
  method Group(ts: Targets, batch: seq<Assignment>) returns (groups: map<Key, map<string, string>>, touched: set<Identity>)
    ensures Groups(ts, batch, groups)
    ensures touched == TouchedBy(ts, batch)
  {
    groups, touched := map[], {};
    var k := 0;
    while k < |batch|
      invariant 0 <= k <= |batch|
      invariant Groups(ts, batch[..k], groups)
      invariant touched == TouchedBy(ts, batch[..k])
    {
      var a := batch[k];
      ghost var longer := batch[..k + 1];
      assert longer[..k] == batch[..k] && longer[k] == a;
      GroupStep(ts, longer, groups);
      var id := Resolved(ts, a);
      if id.Some? {
        var key := Key(id.value, a.container);
        var entries := if key in groups then groups[key] else map[];
        groups := groups[key := entries[a.name := a.value]];
        touched := touched + {id.value};
        TouchedStep(ts, longer);
      }
      k := k + 1;
    }
    assert batch[..k] == batch;
  }

  lemma TouchedStep(ts: Targets, batch: seq<Assignment>)
    requires batch != [] && Resolved(ts, batch[|batch| - 1]).Some?
    ensures TouchedBy(ts, batch) == TouchedBy(ts, batch[..|batch| - 1]) + {Resolved(ts, batch[|batch| - 1]).value}
  {
    var a := batch[|batch| - 1];
    assert Key(Resolved(ts, a).value, a.container) in KeysOf(ts, batch);
  }

  lemma GroupStep(ts: Targets, batch: seq<Assignment>, groups: map<Key, map<string, string>>)
    requires batch != [] && Groups(ts, batch[..|batch| - 1], groups)
    ensures
      var a := batch[|batch| - 1];
      if Resolved(ts, a).Some? then
        var key := Key(Resolved(ts, a).value, a.container);
        Groups(ts, batch, groups[key := Entries(groups, key)[a.name := a.value]])
      else Groups(ts, batch, groups)
  {
    var a := batch[|batch| - 1];
    forall id, c, n
      ensures LastValue(ts, batch, id, {c}, n) ==
              if Resolved(ts, a) == Some(id) && c == a.container && n == a.name then Some(a.value)
              else LastValue(ts, batch[..|batch| - 1], id, {c}, n)
    {
    }
  }

  // ---------------------------------------------------------------- applying a batch

  function OneByOneTo(ts: Targets, batch: seq<Assignment>, id: Identity): (string, string) -> Option<string> {
    (c, n) => OneByOne(ts, batch, id, c, n)
  }

  function ByGroupTo(ts: Targets, batch: seq<Assignment>, id: Identity): (string, string) -> Option<string> {
    (c, n) => ByGroup(ts, batch, id, c, n)
  }

  /** Targets that stand for three different deployments, as when a spec is still being rendered. */
  const APART := Targets(Identity("", "green"), Identity("", "blue"), Some(Identity("", "test")))

  function Own(target: Target): Identity {
    match target
    case Green => APART.green
    case Blue => APART.blue
    case Test => APART.test.value
  }

  lemma ShowsThen(a: seq<Container>, b: seq<Container>, c: seq<Container>, first: (string, string) -> Option<string>,
                  second: (string, string) -> Option<string>, both: (string, string) -> Option<string>)
    requires Shows(a, b, first) && Shows(b, c, second)
    requires forall x, n :: both(x, n) == if second(x, n).Some? then second(x, n) else first(x, n)
    ensures Shows(a, c, both)
  {
    forall i: nat, n | i < |a|
      ensures Seen(c, i, n) == Overlaid(Seen(a, i, n), n, both(a[i].name, n))
    {
      assert Seen(b, i, n) == Overlaid(Seen(a, i, n), n, first(a[i].name, n));
      assert Seen(c, i, n) == Overlaid(Seen(b, i, n), n, second(b[i].name, n));
    }
  }

  /** apply_assignments_to_deployment_spec: one assignment after the other, into every container it
      selects. */
  method ApplyToSpec(cs: seq<Container>, batch: seq<Assignment>, target: Target) returns (r: seq<Container>)
    ensures Shows(cs, r, OneByOneTo(APART, batch, Own(target)))
  {
    r := cs;
    var k := 0;
    while k < |batch|
      invariant 0 <= k <= |batch|
      invariant Shows(cs, r, OneByOneTo(APART, batch[..k], Own(target)))
    {
      var a := batch[k];
      ghost var longer := batch[..k + 1];
      assert longer[..k] == batch[..k] && longer[k] == a;
      if a.target == target && a.isEnv {
        ghost var m := map[a.name := a.value];
        var pair := [(a.name, a.value)];
        assert pair[0].0 == a.name;
        var next := PatchContainers(r, a.container, pair, m);
        ShowsThen(cs, r, next, OneByOneTo(APART, batch[..k], Own(target)), GivenTo(a.container, m), OneByOneTo(APART, longer, Own(target)));
        r := next;
      } else {
        assert Resolved(APART, a) != Some(Own(target));
        SameValues(cs, r, OneByOneTo(APART, batch[..k], Own(target)), OneByOneTo(APART, longer, Own(target)));
      }
      k := k + 1;
    }
    assert batch[..k] == batch;
  }

  lemma SameValues(a: seq<Container>, b: seq<Container>, first: (string, string) -> Option<string>, second: (string, string) -> Option<string>)
    requires Shows(a, b, first) && forall x, n :: first(x, n) == second(x, n)
    ensures Shows(a, b, second)
  {
    forall i: nat, n | i < |a|
      ensures Seen(b, i, n) == Overlaid(Seen(a, i, n), n, second(a[i].name, n))
    {
      assert Seen(b, i, n) == Overlaid(Seen(a, i, n), n, first(a[i].name, n));
    }
  }

  /** Grouping refines applying one by one: for an unmixed batch every container sees the same. */
  lemma GroupingRefinesOneByOne(ts: Targets, batch: seq<Assignment>, id: Identity, before: seq<Container>,
                                grouped: seq<Container>, applied: seq<Container>, i: nat, n: string)
    requires Unmixed(ts, batch) && i < |before|
    requires Shows(before, grouped, ByGroupTo(ts, batch, id)) && Shows(before, applied, OneByOneTo(ts, batch, id))
    ensures |grouped| == |applied| == |before| && Seen(grouped, i, n) == Seen(applied, i, n)
  {
    UnmixedAgrees(ts, batch, id, before[i].name, n);
    assert Seen(grouped, i, n) == Overlaid(Seen(before, i, n), n, ByGroupTo(ts, batch, id)(before[i].name, n));
    assert Seen(applied, i, n) == Overlaid(Seen(before, i, n), n, OneByOneTo(ts, batch, id)(before[i].name, n));
  }

  // ---------------------------------------------------------------- one target or one deployment

  /** The deployment that a target stands for; a test target may stand for none. */
  function IdOf(ts: Targets, t: Target): Option<Identity> {
    match t
    case Green => Some(ts.green)
    case Blue => Some(ts.blue)
    case Test => ts.test
  }

  /** No two targets stand for one deployment. */
  predicate Apart(ts: Targets) {
    ts.green != ts.blue && ts.test != Some(ts.green) && ts.test != Some(ts.blue)
  }

  lemma {:induction false} ApartValues(ts: Targets, batch: seq<Assignment>, t: Target, id: Identity, containers: set<Option<string>>, n: string)
    requires Apart(ts) && IdOf(ts, t) == Some(id)
    ensures LastValue(ts, batch, id, containers, n) == LastValue(APART, batch, Own(t), containers, n)
  {
    if batch != [] {
      ApartValues(ts, batch[..|batch| - 1], t, id, containers, n);
    }
  }

  /** What is assigned to a target's deployment is what is assigned to the target, for all batches,
      exactly if no two targets stand for one deployment. Where two do, as when green and blue are the
      same, the grouped patch also sees what is assigned to the other one. */
  lemma TargetsApartIff(ts: Targets)
    ensures Apart(ts) <==> forall batch, t, id, c, n | IdOf(ts, t) == Some(id) ::
              OneByOne(ts, batch, id, c, n) == OneByOne(APART, batch, Own(t), c, n)
  {
    if Apart(ts) {
      forall batch, t, id, c, n | IdOf(ts, t) == Some(id)
        ensures OneByOne(ts, batch, id, c, n) == OneByOne(APART, batch, Own(t), c, n)
      {
        ApartValues(ts, batch, t, id, {None, Some(c)}, n);
      }
    } else if ts.green == ts.blue {
      OtherTargetSeen(ts, Green, Blue, ts.green);
    } else if ts.test == Some(ts.green) {
      OtherTargetSeen(ts, Green, Test, ts.green);
    } else {
      OtherTargetSeen(ts, Blue, Test, ts.blue);
    }
  }

  /** One assignment to `t`, of nothing in particular. */
  function Sole(t: Target): seq<Assignment> {
    [Assignment(t, true, "", "", None)]
  }

  lemma OtherTargetSeen(ts: Targets, t: Target, other: Target, id: Identity)
    requires t != other && IdOf(ts, t) == Some(id) && IdOf(ts, other) == Some(id)
    ensures OneByOne(ts, Sole(other), id, "", "") != OneByOne(APART, Sole(other), Own(t), "", "")
  {
    var batch := Sole(other);
    assert batch[..0] == [];
    assert |"green"| == 5 && |"blue"| == |"test"| == 4 && "blue"[0] != "test"[0];
    assert Resolved(APART, batch[0]) == Some(Own(other)) && Own(other) != Own(t);
    assert LastValue(ts, batch, id, {None, Some("")}, "") == Some("");
    assert LastValue(APART, batch[..0], Own(t), {None, Some("")}, "") == None;
    assert LastValue(APART, batch, Own(t), {None, Some("")}, "") == None;
  }

  /** The two methods together: for an unmixed batch over different deployments, what the grouped patch
      leaves in a target's deployment shows every container the same as what the one-by-one rendering
      makes of the same containers. */
  lemma PatchRefinesRendering(ts: Targets, batch: seq<Assignment>, t: Target, id: Identity, before: seq<Container>,
                              patched: seq<Container>, rendered: seq<Container>, i: nat, n: string)
    requires Unmixed(ts, batch) && Apart(ts) && IdOf(ts, t) == Some(id) && i < |before|
    requires Shows(before, patched, ByGroupTo(ts, batch, id))
    requires Shows(before, rendered, OneByOneTo(APART, batch, Own(t)))
    ensures |patched| == |rendered| == |before| && Seen(patched, i, n) == Seen(rendered, i, n)
  {
    forall c, x
      ensures OneByOneTo(ts, batch, id)(c, x) == OneByOneTo(APART, batch, Own(t))(c, x)
    {
      ApartValues(ts, batch, t, id, {None, Some(c)}, x);
    }
    SameValues(before, rendered, OneByOneTo(APART, batch, Own(t)), OneByOneTo(ts, batch, id));
    GroupingRefinesOneByOne(ts, batch, id, before, patched, rendered, i, n);
  }

  /** A key that may be patched next: its deployment's group without a container name comes first. */
  lemma FirstOfDeployment(rest: set<Key>) returns (k: Key)
    requires rest != {}
    ensures k in rest && (k.container.Some? ==> Key(k.id, None) !in rest)
  {
    k :| k in rest;
    if k.container.Some? && Key(k.id, None) in rest {
      k := Key(k.id, None);
    }
  }

  /** The stored deployments. */
  class DeploymentApi {
    var deployments: Deployments

    constructor (stored: Deployments)
      ensures deployments == stored
    {
      deployments := stored;
    }

    /** patch_targeted_deployment_env. */
    method PatchTargeted(key: Key, pairs: seq<(string, string)>, ghost m: map<string, string>, ignoreMissing: bool) returns (r: Result<(), Identity>)
      requires Enumerates(pairs, m)
      modifies this
      ensures r.Ok? <==> key.id in old(deployments) || ignoreMissing
      ensures r.Err? ==> r.error == key.id
      ensures key.id !in old(deployments) ==> deployments == old(deployments)
      ensures key.id in old(deployments) ==>
                && key.id in deployments && deployments == old(deployments)[key.id := deployments[key.id]]
                && Shows(old(deployments)[key.id], deployments[key.id], GivenTo(key.container, m))
    {
      if key.id !in deployments {
        return if ignoreMissing then Ok(()) else Err(key.id);
      }
      var patched := PatchContainers(deployments[key.id], key.container, pairs, m);
      deployments := deployments[key.id := patched];
      return Ok(());
    }

    /** apply_assignments. The groups are patched in any order that has the one without a container
        name first for each deployment, as the order of the keys has. `done` are the groups patched:
        all of them, or those before the one whose deployment is missing. */
    method ApplyAssignments(ts: Targets, batch: seq<Assignment>, ignoreMissing: bool)
      returns (r: Result<set<Identity>, Identity>, ghost done: set<Key>)
      modifies this
      ensures r.Ok? <==> ignoreMissing || TouchedBy(ts, batch) <= old(deployments).Keys
      ensures r.Ok? ==> r.value == TouchedBy(ts, batch)
      ensures deployments.Keys == old(deployments).Keys
      ensures r.Ok? ==> forall id | id in deployments :: Shows(old(deployments)[id], deployments[id], ByGroupTo(ts, batch, id))
      ensures r.Err? ==> r.error in TouchedBy(ts, batch) && r.error !in old(deployments)
      ensures r.Err? ==> done <= KeysOf(ts, batch) && forall k | k in done :: k.id in old(deployments)
      ensures r.Err? ==> forall id | id in deployments :: Shows(old(deployments)[id], deployments[id], PartlyTo(ts, batch, done, id))
    {
      var groups, touched := Group(ts, batch);
      var rest := groups.Keys;
      ghost var first := deployments;
      NoneDone(groups, first);
      while rest != {}
        invariant Progress(groups, rest, first, deployments)
        invariant !ignoreMissing ==> forall k | k in groups.Keys - rest :: k.id in first
        decreases |rest|
      {
        ghost var candidate := FirstOfDeployment(rest);
        var key :| key in rest && (key.container.Some? ==> Key(key.id, None) !in rest);
        var pairs := Pairs(groups[key]);
        ghost var before := deployments;
        var patched := PatchTargeted(key, pairs, groups[key], ignoreMissing);
        if patched.Err? {
          assert key in KeysOf(ts, batch);
          done := groups.Keys - rest;
          PartlyDone(ts, batch, groups, rest, first, deployments);
          return Err(patched.error), done;
        }
        ProgressStep(groups, rest, key, first, before, deployments);
        rest := rest - {key};
      }
      AllDone(ts, batch, groups, first, deployments);
      return Ok(touched), groups.Keys;
    }
  }

  /** What the groups in `done` give, each the last values of its key. */
  function PartlyTo(ts: Targets, batch: seq<Assignment>, done: set<Key>, id: Identity): (string, string) -> Option<string> {
    (c, n) =>
      var exact := if Key(id, Some(c)) in done then LastValue(ts, batch, id, {Some(c)}, n) else None;
      if exact.Some? then exact else if Key(id, None) in done then LastValue(ts, batch, id, {None}, n) else None
  }

  lemma PartlyDone(ts: Targets, batch: seq<Assignment>, groups: map<Key, map<string, string>>, rest: set<Key>, first: Deployments, now: Deployments)
    requires Groups(ts, batch, groups) && Progress(groups, rest, first, now)
    ensures forall id | id in now :: Shows(first[id], now[id], PartlyTo(ts, batch, groups.Keys - rest, id))
  {
    forall id | id in now
      ensures Shows(first[id], now[id], PartlyTo(ts, batch, groups.Keys - rest, id))
    {
      SameValues(first[id], now[id], FromGroups(groups, groups.Keys - rest, id), PartlyTo(ts, batch, groups.Keys - rest, id));
    }
  }

  /** All groups but those in `rest` have been patched, those without a container name first. */
  ghost predicate Progress(groups: map<Key, map<string, string>>, rest: set<Key>, first: Deployments, now: Deployments) {
    && rest <= groups.Keys
    && now.Keys == first.Keys
    && (forall k | k in groups.Keys - rest && k.container.Some? :: Key(k.id, None) !in rest)
    && forall id | id in now :: Shows(first[id], now[id], FromGroups(groups, groups.Keys - rest, id))
  }

  lemma NoneDone(groups: map<Key, map<string, string>>, first: Deployments)
    ensures Progress(groups, groups.Keys, first, first)
  {
    forall id | id in first
      ensures Shows(first[id], first[id], FromGroups(groups, {}, id))
    {
    }
    assert groups.Keys - groups.Keys == {};
  }

  lemma ProgressStep(groups: map<Key, map<string, string>>, rest: set<Key>, key: Key, first: Deployments, before: Deployments, now: Deployments)
    requires Progress(groups, rest, first, before)
    requires key in rest && (key.container.Some? ==> Key(key.id, None) !in rest)
    requires key.id !in before ==> now == before
    requires key.id in before ==>
               && key.id in now && now == before[key.id := now[key.id]]
               && Shows(before[key.id], now[key.id], GivenTo(key.container, groups[key]))
    ensures Progress(groups, rest - {key}, first, now)
  {
    var done := groups.Keys - rest;
    assert groups.Keys - (rest - {key}) == done + {key};
    if key.container.None? {
      forall k | k in done && k.container.Some?
        ensures k.id != key.id
      {
        assert Key(k.id, None) !in rest;
      }
    }
    forall id | id in now
      ensures Shows(first[id], now[id], FromGroups(groups, done + {key}, id))
    {
      AfterGroup(groups, done, key, id, first[id], before[id], now[id]);
    }
  }

  lemma AllDone(ts: Targets, batch: seq<Assignment>, groups: map<Key, map<string, string>>, first: Deployments, now: Deployments)
    requires Groups(ts, batch, groups) && Progress(groups, {}, first, now)
    ensures forall id | id in now :: Shows(first[id], now[id], ByGroupTo(ts, batch, id))
  {
    assert groups.Keys - {} == groups.Keys;
    forall id | id in now
      ensures Shows(first[id], now[id], ByGroupTo(ts, batch, id))
    {
      SameValues(first[id], now[id], FromGroups(groups, groups.Keys, id), ByGroupTo(ts, batch, id));
    }
  }

  lemma AfterGroup(groups: map<Key, map<string, string>>, done: set<Key>, key: Key, id: Identity,
                   first: seq<Container>, before: seq<Container>, after: seq<Container>)
    requires key in groups && key !in done
    requires key.container.None? ==> forall k | k in done && k.container.Some? :: k.id != key.id
    requires Shows(first, before, FromGroups(groups, done, id))
    requires if id == key.id then Shows(before, after, GivenTo(key.container, groups[key])) else before == after
    ensures Shows(first, after, FromGroups(groups, done + {key}, id))
  {
    if id == key.id {
      ShowsThen(first, before, after, FromGroups(groups, done, id), GivenTo(key.container, groups[key]), FromGroups(groups, done + {key}, id));
    } else {
      SameValues(first, after, FromGroups(groups, done, id), FromGroups(groups, done + {key}, id));
    }
  }

  /** The entries of a group as a list. */
  method Pairs(m: map<string, string>) returns (pairs: seq<(string, string)>)
    ensures Enumerates(pairs, m)
  {
    pairs := [];
    var rest := m.Keys;
    while rest != {}
      invariant rest <= m.Keys
      invariant forall i | 0 <= i < |pairs| :: pairs[i].0 in m && pairs[i].0 !in rest && m[pairs[i].0] == pairs[i].1
      invariant forall n | n in m && n !in rest :: exists i :: 0 <= i < |pairs| && pairs[i].0 == n
      invariant forall i, j | 0 <= i < j < |pairs| :: pairs[i].0 != pairs[j].0
      decreases |rest|
    {
      var n :| n in rest;
      ghost var before := pairs;
      pairs := pairs + [(n, m[n])];
      forall k | k in m && (k !in rest || k == n)
        ensures exists i :: 0 <= i < |pairs| && pairs[i].0 == k
      {
        if k == n {
          assert pairs[|before|].0 == k;
        } else {
          var i :| 0 <= i < |before| && before[i].0 == k;
          assert pairs[i].0 == k;
        }
      }
      rest := rest - {n};
    }
  }
}
