/** Creating, deleting and collecting the temporary queues of inceptions, and the assignments that
    point applications at them. */
module QueueGc {
  import opened Wrappers
  import opened JsonValues
  import opened QueueNames

  function ListOf(name: Option<string>): seq<string> {
    if name.Some? then [name.value] else []
  }

  function TempOf(active: bool, role: Option<RoleConfig>): seq<string> {
    if active && role.Some? then ListOf(role.value.green) + ListOf(role.value.blue) else []
  }

  function BaseOf(active: bool, role: Option<RoleConfig>): seq<string> {
    if active && role.Some? then ListOf(role.value.base) else []
  }

  /** managed_temp_queue_names. */
  function TempQueues(roles: set<Role>, c: Config): seq<string> {
    TempOf(Duplicator in roles, c.duplicator) + TempOf(Splitter in roles, c.splitter) + TempOf(Combiner in roles, c.combiner)
  }

  /** The queues whose own shadows the preparation creates. */
  function BaseQueues(roles: set<Role>, c: Config): seq<string> {
    BaseOf(Duplicator in roles, c.duplicator) + BaseOf(Splitter in roles, c.splitter) + BaseOf(Combiner in roles, c.combiner)
  }

  /** shadow_queue_name. */
  function Shadow(n: Naming, c: Config, queue: string): Option<string> {
    if c.shadowSuffix.Some? then Some(n.shadow(queue, c.shadowSuffix.value)) else None
  }

  function Shadows(n: Naming, c: Config, queues: seq<string>): set<string> {
    if c.shadowSuffix.Some? then set q | q in queues :: n.shadow(q, c.shadowSuffix.value) else {}
  }

  function SetOf(queues: seq<string>): set<string> {
    set q | q in queues
  }

  function WithShadows(n: Naming, c: Config, queues: seq<string>): set<string> {
    SetOf(queues) + Shadows(n, c, queues)
  }

  function OneWithShadow(n: Naming, c: Config, queue: string): set<string> {
    {queue} + if c.shadowSuffix.Some? then {n.shadow(queue, c.shadowSuffix.value)} else {}
  }

  /** The temporary queues and their shadows. */
  function Managed(n: Naming, roles: set<Role>, c: Config): set<string> {
    WithShadows(n, c, TempQueues(roles, c))
  }

  datatype ActiveInception = ActiveInception(scope: Scope, roles: set<Role>, config: Json)

  function EffectiveConfig(n: Naming, a: ActiveInception): Config {
    n.parsed(Rewritten(n, a.scope, a.config))
  }

  function ManagedFor(n: Naming, a: ActiveInception): set<string> {
    Managed(n, a.roles, EffectiveConfig(n, a))
  }

  function ActiveNames(n: Naming, active: seq<ActiveInception>): set<string> {
    if active == [] then {} else ActiveNames(n, active[..|active| - 1]) + ManagedFor(n, active[|active| - 1])
  }

  lemma {:induction false} ActiveNamesHas(n: Naming, active: seq<ActiveInception>, a: ActiveInception)
    requires a in active
    ensures ManagedFor(n, a) <= ActiveNames(n, active)
  {
    if a != active[|active| - 1] {
      assert a in active[..|active| - 1];
      ActiveNamesHas(n, active[..|active| - 1], a);
    }
  }

  /** The collector's prefix test. */
  predicate Collectable(queue: string) {
    "fluidbg-" <= queue
  }

  // ---------------------------------------------------------------- loops

  /** rewrite_queue_temp_names, one place after the other. */
  method RewriteQueueTempNames(n: Naming, scope: Scope, config: Json) returns (r: Json)
    ensures r == Rewritten(n, scope, config)
  {
    r := config;
    var i := 0;
    while i < |PLACES|
      invariant 0 <= i <= |PLACES|
      invariant SetPlaces(n, scope, config, r, PLACES[i..]) == Rewritten(n, scope, config)
    {
      var p := PLACES[i];
      assert PLACES[i..][0] == p && PLACES[i..][1..] == PLACES[i + 1..];
      r := SetNested(r, [p.role, p.key], NameFor(n, scope, config, p));
      i := i + 1;
    }
    assert PLACES[i..] == [];
  }

  /** active_queue_names. */
  method ActiveQueueNames(n: Naming, active: seq<ActiveInception>) returns (names: set<string>)
    ensures names == ActiveNames(n, active)
  {
    names := {};
    var i := 0;
    while i < |active|
      invariant 0 <= i <= |active|
      invariant names == ActiveNames(n, active[..i])
    {
      var value := RewriteQueueTempNames(n, active[i].scope, active[i].config);
      assert active[..i + 1][..i] == active[..i];
      names := names + Managed(n, active[i].roles, n.parsed(value));
      i := i + 1;
    }
    assert active[..i] == active;
  }

  /** The queues after a preparation, and after a cleanup, with the given permission. */
  function Prepared(queues: set<string>, n: Naming, roles: set<Role>, c: Config, mayCreate: bool): set<string> {
    queues + if mayCreate then Managed(n, roles, c) + Shadows(n, c, BaseQueues(roles, c)) else {}
  }

  function CleanedUp(queues: set<string>, n: Naming, roles: set<Role>, c: Config, mayDelete: bool): set<string> {
    queues - if mayDelete then Managed(n, roles, c) else {}
  }

  /** The namespace's queues, and whether the management configuration lets them be changed. */
  class ServiceBus {
    var queues: set<string>
    const createQueues: bool
    const deleteQueues: bool

    constructor (queues: set<string>, createQueues: bool, deleteQueues: bool)
      ensures this.queues == queues && this.createQueues == createQueues && this.deleteQueues == deleteQueues
    {
      this.queues, this.createQueues, this.deleteQueues := queues, createQueues, deleteQueues;
    }

    function Created(names: set<string>): set<string> {
      if createQueues then names else {}
    }

    function Deleted(names: set<string>): set<string> {
      if deleteQueues then names else {}
    }

    /** create_queue: one that exists is left alone. */
    method CreateQueue(name: string)
      modifies this`queues
      ensures queues == old(queues) + Created({name})
    {
      if createQueues {
        queues := queues + {name};
      }
    }

    /** delete_queue: one that is missing is no error. */
    method DeleteQueue(name: string)
      modifies this`queues
      ensures queues == old(queues) - Deleted({name})
    {
      if deleteQueues {
        queues := queues - {name};
      }
    }

    /** A temporary queue, its shadow first. */
    method CreateWithShadow(n: Naming, c: Config, name: string)
      modifies this`queues
      ensures queues == old(queues) + Created(OneWithShadow(n, c, name))
    {
      var shadow := Shadow(n, c, name);
      if shadow.Some? {
        CreateQueue(shadow.value);
      }
      CreateQueue(name);
    }

    method DeleteWithShadow(n: Naming, c: Config, name: string)
      modifies this`queues
      ensures queues == old(queues) - Deleted(OneWithShadow(n, c, name))
    {
      DeleteQueue(name);
      var shadow := Shadow(n, c, name);
      if shadow.Some? {
        DeleteQueue(shadow.value);
      }
    }

    /** The loop over the base queues, which creates only their shadows. */
    method CreateBaseShadows(n: Naming, c: Config, bases: seq<string>)
      modifies this`queues
      ensures queues == old(queues) + Created(Shadows(n, c, bases))
    {
      if c.shadowSuffix.None? {
        return;
      }
      var i := 0;
      while i < |bases|
        invariant 0 <= i <= |bases|
        invariant queues == old(queues) + Created(Shadows(n, c, bases[..i]))
      {
        CreateQueue(n.shadow(bases[i], c.shadowSuffix.value));
        ShadowsStep(n, c, bases, i);
        i := i + 1;
      }
      assert bases[..i] == bases;
    }

    /** reconcile_queues for the preparation. */
    method Prepare(n: Naming, roles: set<Role>, c: Config)
      modifies this`queues
      ensures queues == Prepared(old(queues), n, roles, c, createQueues)
    {
      CreateBaseShadows(n, c, BaseQueues(roles, c));
      var temps := TempQueues(roles, c);
      ghost var before := queues;
      var i := 0;
      while i < |temps|
        invariant 0 <= i <= |temps|
        invariant queues == before + Created(WithShadows(n, c, temps[..i]))
      {
        CreateWithShadow(n, c, temps[i]);
        ShadowsStep(n, c, temps, i);
        i := i + 1;
      }
      assert temps[..i] == temps;
    }

    /** reconcile_queues for the cleanup. */
    method CleanUp(n: Naming, roles: set<Role>, c: Config)
      modifies this`queues
      ensures queues == CleanedUp(old(queues), n, roles, c, deleteQueues)
    {
      var temps := TempQueues(roles, c);
      var i := 0;
      while i < |temps|
        invariant 0 <= i <= |temps|
        invariant queues == old(queues) - Deleted(WithShadows(n, c, temps[..i]))
      {
        DeleteWithShadow(n, c, temps[i]);
        ShadowsStep(n, c, temps, i);
        i := i + 1;
      }
      assert temps[..i] == temps;
    }

    /** garbage_collect_temp_queues: of the queues that exist, exactly those with the prefix that no
        active inception manages go. */
    method GarbageCollect(n: Naming, active: seq<ActiveInception>)
      modifies this`queues
      ensures queues == old(queues) - Deleted(set q | q in old(queues) && Collectable(q) && q !in ActiveNames(n, active))
    {
      var names := ActiveQueueNames(n, active);
      var rest := queues;
      while rest != {}
        invariant rest <= old(queues)
        invariant queues == old(queues) - Deleted(set q | q in old(queues) - rest && Collectable(q) && q !in names)
        decreases |rest|
      {
        var queue :| queue in rest;
        if Collectable(queue) && queue !in names {
          DeleteQueue(queue);
        }
        rest := rest - {queue};
      }
    }
  }

  lemma ShadowsStep(n: Naming, c: Config, queues: seq<string>, i: nat)
    requires i < |queues|
    ensures WithShadows(n, c, queues[..i + 1]) == WithShadows(n, c, queues[..i]) + OneWithShadow(n, c, queues[i])
    ensures Shadows(n, c, queues[..i + 1]) ==
            Shadows(n, c, queues[..i]) + if c.shadowSuffix.Some? then {n.shadow(queues[i], c.shadowSuffix.value)} else {}
  {
    assert queues[..i + 1] == queues[..i] + [queues[i]];
  }

  // ---------------------------------------------------------------- the collector is safe

  function Collected(n: Naming, active: seq<ActiveInception>, queues: set<string>): set<string> {
    queues - set q | q in queues && Collectable(q) && q !in ActiveNames(n, active)
  }

  /** What the preparation creates for a request. */
  function PreparedQueues(n: Naming, a: ActiveInception): set<string> {
    Prepared({}, n, a.roles, EffectiveConfig(n, a), true)
  }

  /** An inception is listed with the configuration it was prepared with, or with the effective one
      that the preparation has answered. */
  predicate Lists(n: Naming, listed: ActiveInception, prepared: ActiveInception) {
    && listed.scope == prepared.scope && listed.roles == prepared.roles
    && (listed.config == prepared.config || listed.config == Rewritten(n, prepared.scope, prepared.config))
  }

  /** Every temporary queue and temporary shadow queue of a listed inception survives. */
  lemma CollectorKeepsManaged(n: Naming, active: seq<ActiveInception>, listed: ActiveInception, prepared: ActiveInception, queues: set<string>)
    requires listed in active && Lists(n, listed, prepared)
    ensures ManagedFor(n, prepared) <= ActiveNames(n, active)
    ensures queues * ManagedFor(n, prepared) <= Collected(n, active, queues)
  {
    RewriteIsIdempotent(n, prepared.scope, prepared.config);
    assert ManagedFor(n, listed) == ManagedFor(n, prepared);
    ActiveNamesHas(n, active, listed);
  }

  lemma {:induction false} ManagerOf(n: Naming, active: seq<ActiveInception>, q: string) returns (b: ActiveInception)
    requires q in ActiveNames(n, active)
    ensures b in active && q in ManagedFor(n, b)
  {
    var last := |active| - 1;
    if q in ManagedFor(n, active[last]) {
      b := active[last];
    } else {
      b := ManagerOf(n, active[..last], q);
    }
  }

  function BaseShadows(n: Naming, a: ActiveInception): set<string> {
    Shadows(n, EffectiveConfig(n, a), BaseQueues(a.roles, EffectiveConfig(n, a)))
  }

  /** The preparation creates the shadows of base queues too, but they are not managed: such a shadow
      of a listed inception survives exactly if it lacks the prefix or a listed inception manages a
      queue of that name. */
  lemma BaseShadowSurvivesIff(n: Naming, active: seq<ActiveInception>, listed: ActiveInception, queues: set<string>, q: string)
    requires listed in active && q in BaseShadows(n, listed) && q in queues
    ensures q in PreparedQueues(n, listed)
    ensures q in Collected(n, active, queues) <==> !("fluidbg-" <= q) || exists b :: b in active && q in ManagedFor(n, b)
  {
    if q in ActiveNames(n, active) {
      var b := ManagerOf(n, active, q);
    }
    forall b | b in active && q in ManagedFor(n, b)
      ensures q in ActiveNames(n, active)
    {
      ActiveNamesHas(n, active, b);
    }
  }

  /** The configuration has a duplicator for `base` and shadow queues with `suffix`. */
  predicate Duplicates(config: Json, base: string, suffix: string) {
    && Get(config, "duplicator").Object? && ReadText(Get(config, "duplicator"), "inputQueue") == Some(base)
    && ReadText(Get(config, "shadowQueue"), "suffix") == Some(suffix)
  }

  /** The temporary names of its effective configuration. */
  function GreenName(n: Naming, a: ActiveInception): string {
    NameFor(n, a.scope, a.config, PLACES[0])
  }

  function BlueName(n: Naming, a: ActiveInception): string {
    NameFor(n, a.scope, a.config, PLACES[1])
  }

  /** The shadow of the base queue of a lone duplicator is created, and not managed. */
  lemma DuplicatorQueues(n: Naming, c: Config, base: string, green: string, blue: string, suffix: string)
    requires c.duplicator.Some? && c.shadowSuffix == Some(suffix)
    requires c.duplicator.value.base == Some(base) && c.duplicator.value.green == Some(green) && c.duplicator.value.blue == Some(blue)
    ensures n.shadow(base, suffix) in Shadows(n, c, BaseQueues({Duplicator}, c))
    ensures
      var q := n.shadow(base, suffix);
      q != green && q != blue && q != n.shadow(green, suffix) && q != n.shadow(blue, suffix) ==> q !in Managed(n, {Duplicator}, c)
  {
    assert BaseQueues({Duplicator}, c) == [base] && TempQueues({Duplicator}, c) == [green, blue];
    assert base in BaseQueues({Duplicator}, c);
  }

  /** A listed duplicator, read from its rewritten configuration, loses the shadow of its base queue
      whenever that name has the prefix and is none of its own temporary queues or their shadows. */
  lemma DuplicatorShadowCollected(n: Naming, a: ActiveInception, base: string, suffix: string)
    requires a.roles == {Duplicator} && Duplicates(a.config, base, suffix)
    requires n.parsed(Rewritten(n, a.scope, a.config)) == ReadConfig(Rewritten(n, a.scope, a.config))
    requires
      var q := n.shadow(base, suffix);
      && Collectable(q) && q != GreenName(n, a) && q != BlueName(n, a)
      && q != n.shadow(GreenName(n, a), suffix) && q != n.shadow(BlueName(n, a), suffix)
    ensures n.shadow(base, suffix) in PreparedQueues(n, a)
    ensures n.shadow(base, suffix) !in Collected(n, [a], PreparedQueues(n, a))
  {
    EffectiveDuplicator(n, a.scope, a.config, Get(a.config, "duplicator"));
    EffectiveSuffix(n, a.scope, a.config);
    DuplicatorQueues(n, EffectiveConfig(n, a), base, GreenName(n, a), BlueName(n, a), suffix);
    OnlyListed(n, a, n.shadow(base, suffix));
  }

  lemma OnlyListed(n: Naming, a: ActiveInception, q: string)
    requires q in BaseShadows(n, a) && q !in ManagedFor(n, a) && Collectable(q)
    ensures q in PreparedQueues(n, a) && q !in Collected(n, [a], PreparedQueues(n, a))
  {
    BaseShadowSurvivesIff(n, [a], a, PreparedQueues(n, a), q);
  }

  /** There is such a duplicator: of the base queue fluidbg-orders, under names that begin with the
      prefix and the slot. */
  lemma BaseShadowCollected(scope: Scope) returns (n: Naming, a: ActiveInception)
    ensures Duplicates(a.config, "fluidbg-orders", "-shadow") && a.roles == {Duplicator}
    ensures n.shadow("fluidbg-orders", "-shadow") == "fluidbg-orders-shadow"
    ensures "fluidbg-orders-shadow" in PreparedQueues(n, a)
    ensures "fluidbg-orders-shadow" !in Collected(n, [a], PreparedQueues(n, a))
  {
    n := Naming((_, _, slot, _) => "fluidbg-" + slot, (queue, suffix) => queue + suffix, ReadConfig);
    a := ActiveInception(scope, {Duplicator}, Object(map[
      "duplicator" := Object(map["inputQueue" := String("fluidbg-orders")]),
      "shadowQueue" := Object(map["suffix" := String("-shadow")])]));
    var q := "fluidbg-orders" + "-shadow";
    assert q == "fluidbg-orders-shadow" && "fluidbg-" <= q;
    assert GreenName(n, a) == "fluidbg-" + "green-input" && BlueName(n, a) == "fluidbg-" + "blue-input";
    assert q[8] == 'o' && GreenName(n, a)[8] == 'g' && BlueName(n, a)[8] == 'b';
    assert (GreenName(n, a) + "-shadow")[8] == 'g' && (BlueName(n, a) + "-shadow")[8] == 'b';
    DuplicatorShadowCollected(n, a, "fluidbg-orders", "-shadow");
  }

  /** An active role's temporary queue. */
  predicate Temporary(active: bool, role: Option<RoleConfig>, q: string) {
    active && role.Some? && (role.value.green == Some(q) || role.value.blue == Some(q))
  }

  predicate TemporaryIn(roles: set<Role>, c: Config, q: string) {
    || Temporary(Duplicator in roles, c.duplicator, q)
    || Temporary(Splitter in roles, c.splitter, q)
    || Temporary(Combiner in roles, c.combiner, q)
  }

  predicate BaseIn(roles: set<Role>, c: Config, q: string) {
    || (Duplicator in roles && c.duplicator.Some? && c.duplicator.value.base == Some(q))
    || (Splitter in roles && c.splitter.Some? && c.splitter.value.base == Some(q))
    || (Combiner in roles && c.combiner.Some? && c.combiner.value.base == Some(q))
  }

  predicate ShadowOf(n: Naming, c: Config, q: string, of: string) {
    c.shadowSuffix.Some? && q == n.shadow(of, c.shadowSuffix.value)
  }

  /** Queue by queue: the preparation adds the green and blue queues of the active roles with their
      shadows, and the shadows of their base queues; the cleanup removes the former. */
  lemma PreparedIff(n: Naming, roles: set<Role>, c: Config, queues: set<string>, q: string)
    ensures
      var temporary := TemporaryIn(roles, c, q) || exists t :: TemporaryIn(roles, c, t) && ShadowOf(n, c, q, t);
      && (q in Prepared(queues, n, roles, c, true) <==>
            q in queues || temporary || exists b :: BaseIn(roles, c, b) && ShadowOf(n, c, q, b))
      && (q in CleanedUp(queues, n, roles, c, true) <==> q in queues && !temporary)
      && Prepared(queues, n, roles, c, false) == CleanedUp(queues, n, roles, c, false) == queues
  {
    forall t
      ensures t in TempQueues(roles, c) <==> TemporaryIn(roles, c, t)
      ensures t in BaseQueues(roles, c) <==> BaseIn(roles, c, t)
    {
      TempIff(Duplicator in roles, c.duplicator, t);
      TempIff(Splitter in roles, c.splitter, t);
      TempIff(Combiner in roles, c.combiner, t);
    }
  }

  lemma TempIff(active: bool, role: Option<RoleConfig>, q: string)
    ensures q in TempOf(active, role) <==> Temporary(active, role, q)
    ensures q in BaseOf(active, role) <==> active && role.Some? && role.value.base == Some(q)
  {
  }

  /** Preparing an inception on a bus that may create and delete, and cleaning it up again, leaves of
      what was not there before only the shadows of base queues that are not managed. */
  lemma CleanupUndoesPrepare(n: Naming, a: ActiveInception, queues: set<string>)
    requires queues !! ManagedFor(n, a)
    ensures
      var c := EffectiveConfig(n, a);
      CleanedUp(Prepared(queues, n, a.roles, c, true), n, a.roles, c, true) == queues + (BaseShadows(n, a) - ManagedFor(n, a))
  {
  }

  // ---------------------------------------------------------------- assignments

  datatype Target = Green | Blue

  datatype Assignment = Assignment(target: Target, name: string, value: string)

  function Assigned(target: Target, env: Option<string>, queue: Option<string>): seq<Assignment> {
    if env.Some? && queue.Some? then [Assignment(target, env.value, queue.value)] else []
  }

  function RolePrepare(active: bool, role: Option<RoleConfig>): seq<Assignment> {
    if active && role.Some?
    then Assigned(Green, role.value.greenEnv, role.value.green) + Assigned(Blue, role.value.blueEnv, role.value.blue)
    else []
  }

  function RoleCleanup(active: bool, role: Option<RoleConfig>): seq<Assignment> {
    if active && role.Some?
    then Assigned(Green, role.value.greenEnv, role.value.base) + Assigned(Blue, role.value.blueEnv, role.value.base)
    else []
  }

  method Push(assignments: seq<Assignment>, target: Target, env: Option<string>, queue: Option<string>) returns (r: seq<Assignment>)
    ensures r == assignments + Assigned(target, env, queue)
  {
    r := assignments;
    if env.Some? && queue.Some? {
      r := r + [Assignment(target, env.value, queue.value)];
    }
  }

  function PrepareAssignments(c: Config, roles: set<Role>): seq<Assignment> {
    RolePrepare(Duplicator in roles, c.duplicator) + RolePrepare(Splitter in roles, c.splitter) + RolePrepare(Combiner in roles, c.combiner)
  }

  function CleanupAssignments(c: Config, roles: set<Role>): seq<Assignment> {
    RoleCleanup(Duplicator in roles, c.duplicator) + RoleCleanup(Splitter in roles, c.splitter) + RoleCleanup(Combiner in roles, c.combiner)
  }

  method PushPrepare(assignments: seq<Assignment>, active: bool, role: Option<RoleConfig>) returns (r: seq<Assignment>)
    ensures r == assignments + RolePrepare(active, role)
  {
    r := assignments;
    if active && role.Some? {
      r := Push(r, Green, role.value.greenEnv, role.value.green);
      r := Push(r, Blue, role.value.blueEnv, role.value.blue);
    }
  }

  method PushCleanup(assignments: seq<Assignment>, active: bool, role: Option<RoleConfig>) returns (r: seq<Assignment>)
    ensures r == assignments + RoleCleanup(active, role)
  {
    r := assignments;
    if active && role.Some? {
      r := Push(r, Green, role.value.greenEnv, role.value.base);
      r := Push(r, Blue, role.value.blueEnv, role.value.base);
    }
  }

  /** build_prepare_assignments. */
  method BuildPrepareAssignments(c: Config, roles: set<Role>) returns (r: seq<Assignment>)
    ensures r == PrepareAssignments(c, roles)
  {
    r := PushPrepare([], Duplicator in roles, c.duplicator);
    r := PushPrepare(r, Splitter in roles, c.splitter);
    r := PushPrepare(r, Combiner in roles, c.combiner);
  }

  /** build_cleanup_assignments. */
  method BuildCleanupAssignments(c: Config, roles: set<Role>) returns (r: seq<Assignment>)
    ensures r == CleanupAssignments(c, roles)
  {
    r := PushCleanup([], Duplicator in roles, c.duplicator);
    r := PushCleanup(r, Splitter in roles, c.splitter);
    r := PushCleanup(r, Combiner in roles, c.combiner);
  }

  /** An active role points the variable of a side at `queue`. */
  predicate Points(active: bool, role: Option<RoleConfig>, a: Assignment, green: Option<string>, blue: Option<string>) {
    && active && role.Some?
    && ((a.target == Green && role.value.greenEnv == Some(a.name) && green == Some(a.value))
        || (a.target == Blue && role.value.blueEnv == Some(a.name) && blue == Some(a.value)))
  }

  function GreenOf(role: Option<RoleConfig>): Option<string> {
    if role.Some? then role.value.green else None
  }

  function BlueOf(role: Option<RoleConfig>): Option<string> {
    if role.Some? then role.value.blue else None
  }

  function BaseQueueOf(role: Option<RoleConfig>): Option<string> {
    if role.Some? then role.value.base else None
  }

  /** The preparation points exactly the green variables of the active roles at their green queues and the
      blue ones at the blue queues, and the cleanup both at the base queues. */
  lemma AssignedIff(c: Config, roles: set<Role>, a: Assignment)
    ensures a in PrepareAssignments(c, roles) <==>
            || Points(Duplicator in roles, c.duplicator, a, GreenOf(c.duplicator), BlueOf(c.duplicator))
            || Points(Splitter in roles, c.splitter, a, GreenOf(c.splitter), BlueOf(c.splitter))
            || Points(Combiner in roles, c.combiner, a, GreenOf(c.combiner), BlueOf(c.combiner))
    ensures a in CleanupAssignments(c, roles) <==>
            || Points(Duplicator in roles, c.duplicator, a, BaseQueueOf(c.duplicator), BaseQueueOf(c.duplicator))
            || Points(Splitter in roles, c.splitter, a, BaseQueueOf(c.splitter), BaseQueueOf(c.splitter))
            || Points(Combiner in roles, c.combiner, a, BaseQueueOf(c.combiner), BaseQueueOf(c.combiner))
  {
    RoleAssignedIff(Duplicator in roles, c.duplicator, a);
    RoleAssignedIff(Splitter in roles, c.splitter, a);
    RoleAssignedIff(Combiner in roles, c.combiner, a);
  }

  lemma RoleAssignedIff(active: bool, role: Option<RoleConfig>, a: Assignment)
    ensures a in RolePrepare(active, role) <==> Points(active, role, a, GreenOf(role), BlueOf(role))
    ensures a in RoleCleanup(active, role) <==> Points(active, role, a, BaseQueueOf(role), BaseQueueOf(role))
  {
  }

  predicate Sets(assignments: seq<Assignment>, target: Target, name: string) {
    exists a :: a in assignments && a.target == target && a.name == name
  }

  /** A variable that the preparation points at a temporary queue of this role is set back by the
      cleanup exactly when the role names its base queue. */
  lemma RoleRestoredIff(role: RoleConfig, target: Target, name: string)
    requires Sets(RolePrepare(true, Some(role)), target, name)
    ensures Sets(RoleCleanup(true, Some(role)), target, name) <==> role.base.Some?
    ensures forall a | a in RoleCleanup(true, Some(role)) :: Some(a.value) == role.base
  {
    if role.base.Some? {
      assert Assignment(target, name, role.base.value) in RoleCleanup(true, Some(role));
    }
  }

  predicate NamesBase(active: bool, role: Option<RoleConfig>) {
    active && role.Some? ==> role.value.base.Some?
  }

  lemma RoleRestored(active: bool, role: Option<RoleConfig>, target: Target, name: string)
    requires NamesBase(active, role) && Sets(RolePrepare(active, role), target, name)
    ensures Sets(RoleCleanup(active, role), target, name)
  {
    RoleRestoredIff(role.value, target, name);
  }

  /** If every active role names its base queue, the cleanup sets every variable of every target
      that the preparation has set. */
  lemma CleanupRestoresAll(c: Config, roles: set<Role>, target: Target, name: string)
    requires NamesBase(Duplicator in roles, c.duplicator) && NamesBase(Splitter in roles, c.splitter) && NamesBase(Combiner in roles, c.combiner)
    requires Sets(PrepareAssignments(c, roles), target, name)
    ensures Sets(CleanupAssignments(c, roles), target, name)
  {
    var a :| a in PrepareAssignments(c, roles) && a.target == target && a.name == name;
    var all := CleanupAssignments(c, roles);
    if a in RolePrepare(Duplicator in roles, c.duplicator) {
      RoleRestored(Duplicator in roles, c.duplicator, target, name);
      assert forall b | b in RoleCleanup(Duplicator in roles, c.duplicator) :: b in all;
    } else if a in RolePrepare(Splitter in roles, c.splitter) {
      RoleRestored(Splitter in roles, c.splitter, target, name);
      assert forall b | b in RoleCleanup(Splitter in roles, c.splitter) :: b in all;
    } else {
      RoleRestored(Combiner in roles, c.combiner, target, name);
      assert forall b | b in RoleCleanup(Combiner in roles, c.combiner) :: b in all;
    }
  }
}
