/** Sticky assignment: the cache and the assignment table against the plain hash. */
module AbAssign {
  import opened Common
  import opened AbTest
  import opened AbShares
  import opened AbOrder

  /** `variants` is one order in which the query may give them. */
  datatype Experiment = Experiment(id: int, running: bool, variants: seq<Variant>)

  type Experiments = map<string, Experiment>

  /** The first eight bytes of the digest of a key. */
  type Digest = string -> nat

  function KeyOf(experiment: string, user: string): string {
    experiment + ":" + user
  }

  function HashBucket(digest: Digest, experiment: string, user: string): (bucket: nat)
    ensures bucket < BUCKETS
  {
    digest(KeyOf(experiment, user)) % BUCKETS
  }

  /** What the hash alone selects. */
  function Plain(digest: Digest, experiment: string, user: string, vs: seq<Variant>): Variant
    requires vs != []
  {
    vs[Selected(HashBucket(digest, experiment, user), vs)]
  }

  datatype Reply = NotRunning | VariantNotFound | Assigned(variant: Variant)

  /** The cache by key, and the table's rows by experiment id and user. */
  datatype Store = Store(cache: map<string, string>, rows: map<(int, string), int>)

  /** Which of the three store calls succeed. */
  datatype Luck = Luck(read: bool, persisted: bool, cached: bool)

  function Named(vs: seq<Variant>, name: string): (v: Option<Variant>)
    ensures v.None? <==> forall i | 0 <= i < |vs| :: vs[i].name != name
    ensures v.Some? ==> v.value in vs && v.value.name == name
  {
    if vs == [] then None
    else if vs[0].name == name then Some(vs[0])
    else
      var v := Named(vs[1..], name);
      assert forall i | 0 < i < |vs| :: vs[i] == vs[1..][i - 1];
      v
  }

  /** The variant a cached name stands for, if the cache answers. */
  function Hit(s: Store, key: string, vs: seq<Variant>, luck: Luck): Option<Variant> {
    if luck.read && key in s.cache && s.cache[key] != "" then Named(vs, s.cache[key]) else None
  }

  function Written(s: Store, key: string, row: (int, string), v: Variant, luck: Luck): Store {
    Store(if luck.cached then s.cache[key := v.name] else s.cache,
          if luck.persisted && row !in s.rows then s.rows[row := v.id] else s.rows)
  }

  function Runs(exps: Experiments, experiment: string): bool {
    experiment in exps && exps[experiment].running
  }

  /** The reply to a call that loads the variants in `order`. */
  function Answer(s: Store, exps: Experiments, digest: Digest, experiment: string, user: string,
                  order: seq<Variant>, luck: Luck): Reply {
    if !Runs(exps, experiment) then NotRunning
    else
      var hit := Hit(s, KeyOf(experiment, user), order, luck);
      if hit.Some? then Assigned(hit.value)
      else if order == [] then VariantNotFound
      else Assigned(Plain(digest, experiment, user, order))
  }

  function Stored(s: Store, exps: Experiments, digest: Digest, experiment: string, user: string,
                  order: seq<Variant>, luck: Luck): Store {
    if !Runs(exps, experiment) then s
    else
      var e := exps[experiment];
      if Hit(s, KeyOf(experiment, user), order, luck).Some? || order == [] then s
      else Written(s, KeyOf(experiment, user), (e.id, user), Plain(digest, experiment, user, order), luck)
  }

  /** The first variant of the name is v. */
  ghost predicate FirstNamed(vs: seq<Variant>, name: string, v: Variant) {
    exists i :: 0 <= i < |vs| && vs[i] == v && v.name == name && forall j | 0 <= j < i :: vs[j].name != name
  }

  ghost predicate HasName(vs: seq<Variant>, name: string) {
    exists i :: 0 <= i < |vs| && vs[i].name == name
  }

  lemma {:induction false} NamedIsFirst(vs: seq<Variant>, name: string)
    ensures Named(vs, name).Some? <==> HasName(vs, name)
    ensures Named(vs, name).Some? ==> FirstNamed(vs, name, Named(vs, name).value)
  {
    if vs != [] && vs[0].name != name {
      NamedIsFirst(vs[1..], name);
      var v := Named(vs[1..], name);
      if v.Some? {
        var i :| 0 <= i < |vs[1..]| && vs[1..][i] == v.value && forall j | 0 <= j < i :: vs[1..][j].name != name;
        assert vs[i + 1] == v.value;
        assert forall j | 0 < j < i + 1 :: vs[j] == vs[1..][j - 1];
      }
    }
  }

  /** The cache answers: its name stands for a variant. */
  ghost predicate CacheAnswers(s: Store, key: string, order: seq<Variant>, luck: Luck) {
    luck.read && key in s.cache && s.cache[key] != "" && HasName(order, s.cache[key])
  }

  /** What a call for a running experiment must answer and store. */
  ghost predicate Assigns(s: Store, t: Store, reply: Reply, digest: Digest, id: int, experiment: string, user: string,
                          order: seq<Variant>, luck: Luck)
  {
    var key := experiment + ":" + user;
    if CacheAnswers(s, key, order, luck) then
      t == s && reply.Assigned? && FirstNamed(order, s.cache[key], reply.variant)
    else if order == [] then t == s && reply == VariantNotFound
    else
      && (exists i :: 0 <= i < |order| && reply == Assigned(order[i]) && IsSelected(digest(key) % 10000, order, i))
      && t.cache == (if luck.cached then s.cache[key := reply.variant.name] else s.cache)
      && t.rows == (if luck.persisted && (id, user) !in s.rows then s.rows[(id, user) := reply.variant.id] else s.rows)
  }

  /** So after a miss whose row is written, the row is there. */
  lemma PersistedRowIsThere(s: Store, t: Store, reply: Reply, digest: Digest, id: int, experiment: string, user: string,
                            order: seq<Variant>, luck: Luck)
    requires Assigns(s, t, reply, digest, id, experiment, user, order, luck) && reply.Assigned? && luck.persisted
    requires !CacheAnswers(s, experiment + ":" + user, order, luck)
    ensures (id, user) in t.rows
    ensures t.rows[(id, user)] == if (id, user) in s.rows then s.rows[(id, user)] else reply.variant.id
  {
  }

  lemma AnswerAssigns(s: Store, exps: Experiments, digest: Digest, experiment: string, user: string,
                      order: seq<Variant>, luck: Luck)
    requires Runs(exps, experiment)
    ensures Assigns(s, Stored(s, exps, digest, experiment, user, order, luck),
                    Answer(s, exps, digest, experiment, user, order, luck), digest, exps[experiment].id, experiment, user, order, luck)
  {
    var key := experiment + ":" + user;
    if luck.read && key in s.cache && s.cache[key] != "" {
      NamedIsFirst(order, s.cache[key]);
    }
    if order != [] {
      SelectedIs(HashBucket(digest, experiment, user), order);
    }
  }

  class ABTestService {
    const digest: Digest
    var experiments: Experiments
    var cache: map<string, string>
    var rows: map<(int, string), int>

    constructor (digest: Digest, experiments: Experiments)
      ensures this.digest == digest && this.experiments == experiments
      ensures Value() == Store(map[], map[])
    {
      this.digest := digest;
      this.experiments := experiments;
      cache := map[];
      rows := map[];
    }

    function Value(): Store
      reads this
    {
      Store(cache, rows)
    }

    /** `order` is what the query answers. */
    method AssignVariant(experiment: string, user: string, order: seq<Variant>, luck: Luck) returns (reply: Reply)
      modifies this`cache, this`rows
      ensures reply == Answer(old(Value()), experiments, digest, experiment, user, order, luck)
      ensures Value() == Stored(old(Value()), experiments, digest, experiment, user, order, luck)
      ensures experiment !in experiments || !experiments[experiment].running ==> reply == NotRunning && Value() == old(Value())
      ensures experiment in experiments && experiments[experiment].running ==>
                Assigns(old(Value()), Value(), reply, digest, experiments[experiment].id, experiment, user, order, luck)
    {
      if Runs(experiments, experiment) {
        AnswerAssigns(Value(), experiments, digest, experiment, user, order, luck);
      }
      if experiment !in experiments || !experiments[experiment].running {
        return NotRunning;
      }
      var e, key := experiments[experiment], KeyOf(experiment, user);
      if luck.read && key in cache && cache[key] != "" {
        var hit := FindNamed(order, cache[key]);
        if hit.Some? {
          return Assigned(hit.value);
        }
      }
      var selected := SelectVariant(HashBucket(digest, experiment, user), order);
      if selected.None? {
        return VariantNotFound;
      }
      if luck.persisted && (e.id, user) !in rows {
        rows := rows[(e.id, user) := selected.value.id];
      }
      if luck.cached {
        cache := cache[key := selected.value.name];
      }
      return Assigned(selected.value);
    }

    /** The first variant of the name. */
    method FindNamed(vs: seq<Variant>, name: string) returns (v: Option<Variant>)
      ensures v == Named(vs, name)
    {
      assert vs[0..] == vs;
      for i := 0 to |vs|
        invariant Named(vs, name) == Named(vs[i..], name)
      {
        assert vs[i..][1..] == vs[i + 1..];
        if vs[i].name == name {
          return Some(vs[i]);
        }
      }
      return None;
    }
  }

  // ---- Runs ----

  datatype Op =
    | Assign(experiment: string, user: string, order: seq<Variant>, luck: Luck)
    | Expire(key: string)

  /** The orders in which an experiment's variants may be loaded. */
  type Orders = string -> iset<seq<Variant>>

  ghost predicate OpPossible(orders: Orders, op: Op) {
    op.Assign? ==> op.order in orders(op.experiment)
  }

  /** Every call loads the variants in one of the experiment's orders. */
  ghost predicate Possible(orders: Orders, ops: seq<Op>) {
    forall i | 0 <= i < |ops| :: OpPossible(orders, ops[i])
  }

  function Apply(s: Store, exps: Experiments, digest: Digest, op: Op): Store {
    match op
    case Assign(x, u, order, luck) => Stored(s, exps, digest, x, u, order, luck)
    case Expire(key) => s.(cache := s.cache - {key})
  }

  const NOTHING := Store(map[], map[])

  function After(exps: Experiments, digest: Digest, ops: seq<Op>): Store {
    if ops == [] then NOTHING
    else Apply(After(exps, digest, ops[..|ops| - 1]), exps, digest, ops[|ops| - 1])
  }

  ghost predicate DistinctNames(vs: seq<Variant>) {
    forall i, j | 0 <= i < j < |vs| :: vs[i].name != vs[j].name
  }

  /** One name and a colon begin the other. */
  predicate Clash(x: string, y: string) {
    x + ":" <= y || y + ":" <= x
  }

  /** What the tables' unique keys give, and names whose cache keys cannot meet. */
  ghost predicate Separate(exps: Experiments) {
    forall x, y | x in exps && y in exps && x != y :: exps[x].id != exps[y].id && !Clash(x, y)
  }

  /** Every order has the experiment's variants, whose names differ. */
  ghost predicate Permuted(exps: Experiments, orders: Orders) {
    forall x | Runs(exps, x) ::
      DistinctNames(exps[x].variants) && forall order | order in orders(x) :: multiset(order) == multiset(exps[x].variants)
  }

  /** What the hash alone answers. */
  function Choice(order: seq<Variant>, bucket: nat): Reply {
    if order == [] then VariantNotFound else Assigned(order[Selected(bucket, order)])
  }

  ghost predicate Agreeing(a: seq<Variant>, b: seq<Variant>) {
    forall bucket | 0 <= bucket < BUCKETS :: Choice(a, bucket) == Choice(b, bucket)
  }

  /** The orders of each running experiment select the same variant for every bucket. */
  ghost predicate OrdersAgree(exps: Experiments, orders: Orders) {
    forall x, a, b | Runs(exps, x) && a in orders(x) && b in orders(x) :: Agreeing(a, b)
  }

  /** Two experiments share a key for some users exactly when their names clash. */
  lemma KeysMeet(x: string, y: string)
    requires x != y
    ensures (exists u, v :: KeyOf(x, u) == KeyOf(y, v)) <==> Clash(x, y)
  {
    if x + ":" <= y {
      var v := "";
      var u := KeyOf(y, v)[|x| + 1..];
      assert KeyOf(x, u) == KeyOf(y, v);
    } else if y + ":" <= x {
      var u := "";
      var v := KeyOf(x, u)[|y| + 1..];
      assert KeyOf(x, u) == KeyOf(y, v);
    }
    forall u, v | KeyOf(x, u) == KeyOf(y, v)
      ensures Clash(x, y)
    {
      SameKeyClashes(x, u, y, v);
    }
  }

  lemma SameKeyClashes(x: string, u: string, y: string, v: string)
    requires x != y && KeyOf(x, u) == KeyOf(y, v)
    ensures Clash(x, y)
  {
    var k := KeyOf(x, u);
    assert k[..|x| + 1] == x + ":" && k[..|y|] == y && k[..|x|] == x;
    assert k[..|y| + 1] == y + ":";
    if |x| < |y| {
      assert k[..|x| + 1] <= y;
    } else if |y| < |x| {
      assert k[..|y| + 1] <= x;
    }
  }

  // ---- One variant per user ----

  /** What is stored for a user is what the hash selects from the order. */
  ghost predicate RowAgrees(s: Store, exps: Experiments, digest: Digest, x: string, u: string, order: seq<Variant>)
    requires Runs(exps, x)
  {
    var e, choice := exps[x], Choice(order, HashBucket(digest, x, u));
    && (KeyOf(x, u) in s.cache ==> choice.Assigned? && s.cache[KeyOf(x, u)] == choice.variant.name)
    && ((e.id, u) in s.rows ==> choice.Assigned? && s.rows[(e.id, u)] == choice.variant.id)
  }

  ghost predicate Agrees(s: Store, exps: Experiments, digest: Digest, orders: Orders) {
    forall x, u, order | Runs(exps, x) && order in orders(x) :: RowAgrees(s, exps, digest, x, u, order)
  }

  ghost predicate AnswersPlainly(s: Store, exps: Experiments, digest: Digest, x: string, u: string,
                                 order: seq<Variant>, luck: Luck, any: seq<Variant>)
  {
    Answer(s, exps, digest, x, u, order, luck) == Choice(any, HashBucket(digest, x, u))
  }

  /** A name stands for one variant, whatever the order. */
  lemma NamedInAnyOrder(order: seq<Variant>, vs: seq<Variant>, v: Variant)
    requires DistinctNames(vs) && multiset(order) == multiset(vs) && v in vs
    ensures Named(order, v.name) == Some(v)
  {
    var i :| 0 <= i < |vs| && vs[i] == v;
    var j := LoadedHas(vs, order, i);
    var named := Named(order, v.name);
    assert named.Some?;
    var k :| 0 <= k < |order| && order[k] == named.value;
    var l := LoadedHas(order, vs, k);
    assert vs[l].name == vs[i].name;
  }

  lemma NamedAcross(order: seq<Variant>, any: seq<Variant>, vs: seq<Variant>, i: nat)
    requires DistinctNames(vs) && multiset(order) == multiset(vs) && multiset(any) == multiset(vs) && i < |any|
    ensures Named(order, any[i].name) == Some(any[i])
  {
    var j := LoadedHas(any, vs, i);
    NamedInAnyOrder(order, vs, any[i]);
  }

  lemma AnswerIsPlain(s: Store, exps: Experiments, digest: Digest, orders: Orders, x: string, u: string,
                      order: seq<Variant>, luck: Luck, any: seq<Variant>)
    requires Permuted(exps, orders) && OrdersAgree(exps, orders) && Agrees(s, exps, digest, orders)
    requires Runs(exps, x) && order in orders(x) && any in orders(x)
    ensures AnswersPlainly(s, exps, digest, x, u, order, luck, any)
  {
    var bucket := HashBucket(digest, x, u);
    assert RowAgrees(s, exps, digest, x, u, any) && Agreeing(order, any);
    assert Choice(order, bucket) == Choice(any, bucket);
    if any != [] {
      NamedAcross(order, any, exps[x].variants, Selected(bucket, any));
    }
  }

  lemma KeysApart(exps: Experiments, x: string, u: string, y: string, v: string)
    requires Separate(exps) && x in exps && y in exps && (x != y || u != v)
    ensures KeyOf(x, u) != KeyOf(y, v) && (exps[x].id, u) != (exps[y].id, v)
  {
    if x == y {
      assert KeyOf(x, u)[|x| + 1..] == u && KeyOf(y, v)[|y| + 1..] == v;
    } else if KeyOf(x, u) == KeyOf(y, v) {
      SameKeyClashes(x, u, y, v);
    }
  }

  /** Rows are only added. */
  ghost predicate RowsKept(s: Store, t: Store) {
    forall row | row in s.rows :: row in t.rows && t.rows[row] == s.rows[row]
  }

  lemma OpKeepsRow(s: Store, exps: Experiments, digest: Digest, orders: Orders, op: Op,
                   x: string, u: string, any: seq<Variant>)
    requires Separate(exps) && OrdersAgree(exps, orders) && OpPossible(orders, op)
    requires Runs(exps, x) && any in orders(x) && RowAgrees(s, exps, digest, x, u, any)
    ensures RowAgrees(Apply(s, exps, digest, op), exps, digest, x, u, any)
  {
    if op.Assign? && Runs(exps, op.experiment) {
      if op.experiment == x && op.user == u {
        assert Agreeing(op.order, any);
        assert Choice(op.order, HashBucket(digest, x, u)) == Choice(any, HashBucket(digest, x, u));
      } else {
        KeysApart(exps, op.experiment, op.user, x, u);
      }
    }
  }

  lemma OpKeepsAgreement(s: Store, exps: Experiments, digest: Digest, orders: Orders, op: Op)
    requires Separate(exps) && OrdersAgree(exps, orders) && Agrees(s, exps, digest, orders) && OpPossible(orders, op)
    ensures Agrees(Apply(s, exps, digest, op), exps, digest, orders)
  {
    forall x, u, any | Runs(exps, x) && any in orders(x)
      ensures RowAgrees(Apply(s, exps, digest, op), exps, digest, x, u, any)
    {
      assert RowAgrees(s, exps, digest, x, u, any);
      OpKeepsRow(s, exps, digest, orders, op, x, u, any);
    }
  }

  /** Whatever was cached, expired or failed to be written before, and in whichever of its orders each
      call loads the variants, stored rows and cached names are what the hash selects. */
  lemma {:induction false} RunsAgree(exps: Experiments, digest: Digest, orders: Orders, ops: seq<Op>)
    requires Separate(exps) && OrdersAgree(exps, orders) && Possible(orders, ops)
    ensures Agrees(After(exps, digest, ops), exps, digest, orders)
  {
    if ops != [] {
      var init := ops[..|ops| - 1];
      assert forall i | 0 <= i < |init| :: init[i] == ops[i];
      RunsAgree(exps, digest, orders, init);
      OpKeepsAgreement(After(exps, digest, init), exps, digest, orders, ops[|ops| - 1]);
    }
  }

  /** A stored row never changes, whatever the experiments are and the calls load. */
  lemma {:induction false} RowsStay(exps: Experiments, digest: Digest, ops: seq<Op>, k: nat)
    requires k <= |ops|
    ensures RowsKept(After(exps, digest, ops[..k]), After(exps, digest, ops))
    decreases |ops|
  {
    if k == |ops| {
      assert ops[..k] == ops;
    } else {
      var init := ops[..|ops| - 1];
      assert init[..k] == ops[..k];
      RowsStay(exps, digest, init, k);
    }
  }

  /** Every reply of every run is what the hash alone selects, from whichever of the orders. */
  ghost predicate Sticky(exps: Experiments, orders: Orders) {
    forall digest, ops, x, u, order, luck, any
      | Possible(orders, ops) && Runs(exps, x) && order in orders(x) && any in orders(x) ::
      AnswersPlainly(After(exps, digest, ops), exps, digest, x, u, order, luck, any)
  }

  function AlwaysBucket(bucket: nat): Digest {
    _ => bucket
  }

  lemma FirstAnswer(exps: Experiments, x: string, order: seq<Variant>, bucket: nat)
    requires Runs(exps, x) && bucket < BUCKETS
    ensures HashBucket(AlwaysBucket(bucket), x, "") == bucket
    ensures Answer(NOTHING, exps, AlwaysBucket(bucket), x, "", order, Luck(false, false, false)) == Choice(order, bucket)
  {
  }

  lemma StickyAtStart(exps: Experiments, orders: Orders, x: string, a: seq<Variant>, b: seq<Variant>, bucket: nat)
    requires Sticky(exps, orders) && Runs(exps, x) && a in orders(x) && b in orders(x) && bucket < BUCKETS
    ensures Choice(a, bucket) == Choice(b, bucket)
  {
    var ops: seq<Op> := [];
    var digest := AlwaysBucket(bucket);
    assert Possible(orders, ops) && After(exps, digest, ops) == NOTHING;
    assert AnswersPlainly(NOTHING, exps, digest, x, "", a, Luck(false, false, false), b);
    FirstAnswer(exps, x, a, bucket);
  }

  /** For any allocations, and any orders each experiment's variants may be loaded in: assignments are
      sticky in every run if and only if the orders select the same variant for every bucket. */
  lemma AssignmentsAreSticky(exps: Experiments, orders: Orders)
    requires Separate(exps) && Permuted(exps, orders)
    ensures Sticky(exps, orders) <==> OrdersAgree(exps, orders)
  {
    if OrdersAgree(exps, orders) {
      forall digest, ops, x, u, order, luck, any
        | Possible(orders, ops) && Runs(exps, x) && order in orders(x) && any in orders(x)
        ensures AnswersPlainly(After(exps, digest, ops), exps, digest, x, u, order, luck, any)
      {
        RunsAgree(exps, digest, orders, ops);
        AnswerIsPlain(After(exps, digest, ops), exps, digest, orders, x, u, order, luck, any);
      }
    }
    if Sticky(exps, orders) {
      forall x, a, b | Runs(exps, x) && a in orders(x) && b in orders(x)
        ensures Agreeing(a, b)
      {
        forall bucket | 0 <= bucket < BUCKETS
          ensures Choice(a, bucket) == Choice(b, bucket)
        {
          StickyAtStart(exps, orders, x, a, b, bucket);
        }
      }
    }
  }

  // ---- One order ----

  ghost function Fixed(exps: Experiments): Orders {
    x => if x in exps then iset{exps[x].variants} else iset{}
  }

  /** When the order never changes, assignments are sticky, whatever the allocations. */
  lemma OneOrderIsSticky(exps: Experiments)
    requires Separate(exps) && forall x | Runs(exps, x) :: DistinctNames(exps[x].variants)
    ensures Sticky(exps, Fixed(exps))
  {
    AssignmentsAreSticky(exps, Fixed(exps));
  }

  // ---- The orders the query allows ----

  ghost function Queried(exps: Experiments): Orders {
    x => iset order | x in exps && Loads(order, exps[x].variants)
  }

  /** Distinct names, written down in one of the query's orders. */
  ghost predicate Listed(vs: seq<Variant>) {
    DistinctNames(vs) && Ascending(vs)
  }

  ghost predicate AllListed(exps: Experiments) {
    forall x | Runs(exps, x) :: Listed(exps[x].variants)
  }

  /** The variant of every bucket has an allocation that no other variant has. */
  ghost predicate AllSelectedAlone(exps: Experiments) {
    forall x | Runs(exps, x) && exps[x].variants != [] :: SelectedAlone(exps[x].variants)
  }

  lemma QueriedAgree(vs: seq<Variant>)
    requires vs != [] && Listed(vs)
    ensures (forall a, b | Loads(a, vs) && Loads(b, vs) :: Agreeing(a, b)) <==> SelectedAlone(vs)
  {
    OrderIsFreeExactly(vs);
    if OrderFree(vs) {
      forall a, b | Loads(a, vs) && Loads(b, vs)
        ensures Agreeing(a, b)
      {
        SameLength(a, vs);
        SameLength(b, vs);
        forall bucket | 0 <= bucket < BUCKETS
          ensures Choice(a, bucket) == Choice(b, bucket)
        {
          assert SameChoice(a, vs, bucket) && SameChoice(b, vs, bucket);
        }
      }
    }
    if forall a, b | Loads(a, vs) && Loads(b, vs) :: Agreeing(a, b) {
      forall ws, bucket | Loads(ws, vs) && ws != [] && 0 <= bucket < BUCKETS
        ensures SameChoice(ws, vs, bucket)
      {
        assert Agreeing(ws, vs) && Choice(ws, bucket) == Choice(vs, bucket);
      }
    }
  }

  lemma QueriedAgreeOf(exps: Experiments, x: string)
    requires AllListed(exps) && Runs(exps, x)
    ensures (forall a, b | a in Queried(exps)(x) && b in Queried(exps)(x) :: Agreeing(a, b))
            <==> exps[x].variants == [] || SelectedAlone(exps[x].variants)
  {
    var vs := exps[x].variants;
    if vs == [] {
      forall a | a in Queried(exps)(x)
        ensures a == []
      {
        SameLength(a, vs);
      }
    } else {
      QueriedAgree(vs);
      assert forall a :: a in Queried(exps)(x) <==> Loads(a, vs);
    }
  }

  /** With every call loading the variants in any order the query allows, assignments are sticky if and
      only if no variant that gets a bucket shares its allocation with another. */
  lemma QueriedAssignmentsAreSticky(exps: Experiments)
    requires Separate(exps) && AllListed(exps)
    ensures Sticky(exps, Queried(exps)) <==> AllSelectedAlone(exps)
  {
    var orders := Queried(exps);
    AssignmentsAreSticky(exps, orders);
    forall x | Runs(exps, x)
      ensures (forall a, b | a in orders(x) && b in orders(x) :: Agreeing(a, b))
              <==> exps[x].variants == [] || SelectedAlone(exps[x].variants)
    {
      QueriedAgreeOf(exps, x);
    }
  }

  /** Non-negative allocations of which the last one is positive and reached: all that are tolerated as
      whole hundredths are such, and most that rounding moved. */
  ghost predicate Spread(vs: seq<Variant>) {
    vs != [] && NoNegative(vs) && vs[|vs| - 1].points > 0 && Points(vs, |vs| - 1) <= BUCKETS
  }

  /** For such allocations that is if and only if no two variants have the same positive one. */
  lemma UntiedAssignmentsAreSticky(exps: Experiments)
    requires Separate(exps) && AllListed(exps) && forall x | Runs(exps, x) :: Spread(exps[x].variants)
    ensures Sticky(exps, Queried(exps)) <==> forall x | Runs(exps, x) :: Untied(exps[x].variants)
  {
    QueriedAssignmentsAreSticky(exps);
    forall x | Runs(exps, x)
      ensures SelectedAlone(exps[x].variants) <==> Untied(exps[x].variants)
    {
      var vs := exps[x].variants;
      assert Listed(vs) && Spread(vs);
      assert Distinct(vs);
      OrderIsFreeExactly(vs);
      OrderIsFreeWithoutTies(vs);
    }
  }

  /** A list summing to what is tolerated of whole hundredths is spread. */
  lemma ToleratedIsSpread(vs: seq<Variant>)
    requires NoNegative(vs) && Ascending(vs) && BUCKETS - 1 <= Points(vs, |vs|) <= BUCKETS + 1
    ensures Spread(vs)
  {
    if vs[|vs| - 1].points == 0 {
      ZeroLast(vs, |vs|);
    }
  }

  // ---- Names that clash ----

  /** Where names clash, one experiment's cached choice answers for the other: the second call agrees
      with the hash exactly when the hash happens to select a variant of the cached name. */
  lemma ClashingNamesShareTheCache(exps: Experiments, digest: Digest, x: string, rest: string, v: string)
    requires var y := x + ":" + rest;
             Runs(exps, x) && Runs(exps, y) && exps[x].variants != []
             && exps[y].variants != [] && DistinctNames(exps[y].variants)
    requires var y, u := x + ":" + rest, KeyOf(rest, v);
             var cached := Plain(digest, x, u, exps[x].variants).name;
             cached != "" && Named(exps[y].variants, cached).Some?
    ensures var y, u := x + ":" + rest, KeyOf(rest, v);
            var all := Luck(true, true, true);
            var s := After(exps, digest, [Assign(x, u, exps[x].variants, all)]);
            var cached := Plain(digest, x, u, exps[x].variants).name;
            Answer(s, exps, digest, y, v, exps[y].variants, all) == Assigned(Plain(digest, y, v, exps[y].variants))
            <==> Plain(digest, y, v, exps[y].variants).name == cached
  {
    var y, u := x + ":" + rest, KeyOf(rest, v);
    var all := Luck(true, true, true);
    assert KeyOf(x, u) == KeyOf(y, v);
    var ops := [Assign(x, u, exps[x].variants, all)];
    assert ops[..0] == [];
    assert After(exps, digest, ops) == Stored(NOTHING, exps, digest, x, u, exps[x].variants, all);
    var vs := exps[y].variants;
    NamedInAnyOrder(vs, vs, Plain(digest, y, v, vs));
  }
}
