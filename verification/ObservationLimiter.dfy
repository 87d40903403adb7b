/**
  Admission of plugin observations under a global, a per-plugin, a per-user and a per-token limit, with
  staged acquisition, rollback, and a release that takes effect once.
 */
module ObservationLimiter {
  import opened Text

  datatype Identity = Identity(plugin: string, user: int, token: int)

  datatype Limits = Limits(global: int, perPlugin: int, perUser: int, perToken: int)

  datatype Scope = GlobalScope | PluginScope | UserScope | TokenScope

  datatype Outcome = Admitted(id: Identity) | Invalid | Full(scope: Scope, limit: int)

  /** The four counters. */
  datatype Counts = Counts(global: int, plugin: map<string, int>, user: map<int, int>, token: map<int, int>)

  const NO_COUNTS := Counts(0, map[], map[], map[])

  /** A Go map read: a missing key counts zero. */
  function Get<K>(m: map<K, int>, k: K): int {
    if k in m then m[k] else 0
  }

  function Up<K>(m: map<K, int>, k: K): map<K, int> {
    m[k := Get(m, k) + 1]
  }

  /** Decrement, deleting an entry that reaches zero. */
  function Down<K>(m: map<K, int>, k: K): map<K, int> {
    if Get(m, k) == 1 then m - {k} else m[k := Get(m, k) - 1]
  }

  function Taken(c: Counts, id: Identity): Counts {
    Counts(c.global + 1, Up(c.plugin, id.plugin), Up(c.user, id.user), Up(c.token, id.token))
  }

  function Released(c: Counts, id: Identity): Counts {
    Counts(c.global - 1, Down(c.plugin, id.plugin), Down(c.user, id.user), Down(c.token, id.token))
  }

  /** Whose observations a counter counts. */
  datatype Key = AnyKey | PluginKey(plugin: string) | UserKey(user: int) | TokenKey(token: int)

  predicate Covers(key: Key, id: Identity) {
    match key
    case AnyKey => true
    case PluginKey(p) => id.plugin == p
    case UserKey(u) => id.user == u
    case TokenKey(t) => id.token == t
  }

  function CountOf(c: Counts, key: Key): int {
    match key
    case AnyKey => c.global
    case PluginKey(p) => Get(c.plugin, p)
    case UserKey(u) => Get(c.user, u)
    case TokenKey(t) => Get(c.token, t)
  }

  function LimitOf(limits: Limits, key: Key): int {
    match key
    case AnyKey => limits.global
    case PluginKey(_) => limits.perPlugin
    case UserKey(_) => limits.perUser
    case TokenKey(_) => limits.perToken
  }

  predicate AtLimit(c: Counts, limits: Limits, key: Key) {
    CountOf(c, key) >= LimitOf(limits, key)
  }

  predicate ValidIdentity(plugin: string, user: int, token: int) {
    TrimSpace(plugin) != "" && user > 0 && token > 0
  }

  /** What acquisition answers: the first full scope in the order global, plugin, user, token. */
  function Answer(c: Counts, limits: Limits, plugin: string, user: int, token: int): Outcome {
    var id := Identity(TrimSpace(plugin), user, token);
    if !ValidIdentity(plugin, user, token) then Invalid
    else if AtLimit(c, limits, AnyKey) then Full(GlobalScope, limits.global)
    else if AtLimit(c, limits, PluginKey(id.plugin)) then Full(PluginScope, limits.perPlugin)
    else if AtLimit(c, limits, UserKey(user)) then Full(UserScope, limits.perUser)
    else if AtLimit(c, limits, TokenKey(token)) then Full(TokenScope, limits.perToken)
    else Admitted(id)
  }

  /** No map holds a zero or a negative count. */
  predicate Positive(c: Counts) {
    AllPositive(c.plugin) && AllPositive(c.user) && AllPositive(c.token)
  }

  predicate AllPositive<K>(m: map<K, int>) {
    forall k :: k in m ==> m[k] > 0
  }

  lemma DownUp<K>(m: map<K, int>, k: K)
    requires AllPositive(m)
    ensures Down(Up(m, k), k) == m
  {
  }

  class Limiter {
    const limits: Limits
    var global: int
    var plugin: map<string, int>
    var user: map<int, int>
    var token: map<int, int>

    function Counters(): Counts
      reads this
    {
      Counts(global, plugin, user, token)
    }

    constructor (limits: Limits)
      ensures Counters() == NO_COUNTS && this.limits == limits
    {
      this.limits := limits;
      global, plugin, user, token := 0, map[], map[], map[];
    }

    /**
      `acquire`: each scope is taken in turn and given back when a later one is full. Where no map holds a
      zero a failed acquisition leaves every counter as it was.
     */
    method Acquire(pluginKey: string, userID: int, tokenID: int) returns (r: Outcome, lease: Lease?)
      requires Positive(Counters())
      modifies this
      ensures r == Answer(old(Counters()), limits, pluginKey, userID, tokenID)
      ensures Counters() == if r.Admitted? then Taken(old(Counters()), r.id) else old(Counters())
      ensures r.Admitted? <==> lease != null
      ensures lease != null ==> fresh(lease) && lease.owner == this && lease.id == r.id && !lease.done
    {
      lease := null;
      var key := TrimSpace(pluginKey);
      DownUp(plugin, key);
      DownUp(user, userID);
      if key == "" || userID <= 0 || tokenID <= 0 {
        return Invalid, null;
      }
      if global >= limits.global {
        return Full(GlobalScope, limits.global), null;
      }
      global := global + 1;

      if Get(plugin, key) >= limits.perPlugin {
        global := global - 1;
        return Full(PluginScope, limits.perPlugin), null;
      }
      plugin := Up(plugin, key);

      if Get(user, userID) >= limits.perUser {
        global := global - 1;
        plugin := Down(plugin, key);
        return Full(UserScope, limits.perUser), null;
      }
      user := Up(user, userID);

      if Get(token, tokenID) >= limits.perToken {
        global := global - 1;
        plugin := Down(plugin, key);
        user := Down(user, userID);
        return Full(TokenScope, limits.perToken), null;
      }
      token := Up(token, tokenID);
      var id := Identity(key, userID, tokenID);
      lease := new Lease(this, id);
      r := Admitted(id);
    }
  }

  /** The closure returned by a successful acquisition, guarded by a `sync.Once`. */
  class Lease {
    const owner: Limiter
    const id: Identity
    var done: bool

    constructor (owner: Limiter, id: Identity)
      ensures this.owner == owner && this.id == id && !done
    {
      this.owner, this.id := owner, id;
      done := false;
    }

    method Release()
      modifies this, owner
      ensures done
      ensures owner.Counters() == if old(done) then old(owner.Counters()) else Released(old(owner.Counters()), id)
    {
      if !done {
        done := true;
        owner.global := owner.global - 1;
        owner.plugin := Down(owner.plugin, id.plugin);
        owner.user := Down(owner.user, id.user);
        owner.token := Down(owner.token, id.token);
      }
    }
  }

  // ---------------------------------------------------------------- every run

  datatype LeaseRecord = LeaseRecord(id: Identity, open: bool)

  /** The counters together with every lease ever granted. */
  datatype State = State(counts: Counts, leases: seq<LeaseRecord>)

  datatype Event = Acquire(plugin: string, user: int, token: int) | Release(lease: nat)

  function Next(limits: Limits, s: State, e: Event): State {
    match e
    case Acquire(plugin, user, token) =>
      var r := Answer(s.counts, limits, plugin, user, token);
      if r.Admitted? then State(Taken(s.counts, r.id), s.leases + [LeaseRecord(r.id, true)]) else s
    case Release(i) =>
      if i < |s.leases| && s.leases[i].open
      then State(Released(s.counts, s.leases[i].id), s.leases[i := s.leases[i].(open := false)])
      else s
  }

  function Run(limits: Limits, s: State, events: seq<Event>): State
    decreases |events|
  {
    if events == [] then s else Run(limits, Next(limits, s, events[0]), events[1..])
  }

  function Counted(r: LeaseRecord, key: Key): nat {
    if r.open && Covers(key, r.id) then 1 else 0
  }

  /** Open leases covered by `key` among the first `n`. */
  function Live(leases: seq<LeaseRecord>, n: nat, key: Key): nat
    requires n <= |leases|
  {
    if n == 0 then 0 else Live(leases, n - 1, key) + Counted(leases[n - 1], key)
  }

  ghost function Total<K>(m: map<K, int>): int
    decreases |m|
  {
    if m == map[] then 0
    else
      var k: K :| k in m;
      m[k] + Total(m - {k})
  }

  predicate Balanced(limits: Limits, s: State, key: Key) {
    && CountOf(s.counts, key) == Live(s.leases, |s.leases|, key)
    && (CountOf(s.counts, key) > 0 ==> CountOf(s.counts, key) <= LimitOf(limits, key))
  }

  /** Every counter equals its live leases within its limit; no zero is stored; the totals agree. */
  ghost predicate Inv(limits: Limits, s: State) {
    && (forall key :: Balanced(limits, s, key))
    && Positive(s.counts)
    && Total(s.counts.plugin) == Total(s.counts.user) == Total(s.counts.token) == s.counts.global
  }

  lemma {:induction false} LiveUpdate(leases: seq<LeaseRecord>, n: nat, i: nat, r: LeaseRecord, key: Key)
    requires i < |leases| && n <= |leases|
    ensures Live(leases[i := r], n, key) + (if i < n then Counted(leases[i], key) else 0)
            == Live(leases, n, key) + (if i < n then Counted(r, key) else 0)
  {
    if n > 0 {
      LiveUpdate(leases, n - 1, i, r, key);
    }
  }

  lemma {:induction false} LivePrefix(leases: seq<LeaseRecord>, r: LeaseRecord, n: nat, key: Key)
    requires n <= |leases|
    ensures Live(leases + [r], n, key) == Live(leases, n, key)
  {
    if n > 0 {
      LivePrefix(leases, r, n - 1, key);
    }
  }

  lemma {:induction false} LiveAtLeast(leases: seq<LeaseRecord>, n: nat, i: nat, key: Key)
    requires i < n <= |leases|
    ensures Live(leases, n, key) >= Counted(leases[i], key)
  {
    if i < n - 1 {
      LiveAtLeast(leases, n - 1, i, key);
    }
  }

  /** A total does not depend on the order in which the entries are summed. */
  lemma {:induction false} TotalRemove<K>(m: map<K, int>, k: K)
    requires k in m
    ensures Total(m) == m[k] + Total(m - {k})
    decreases |m|
  {
    var x: K :| x in m && Total(m) == m[x] + Total(m - {x});
    if x != k {
      TotalRemove(m - {x}, k);
      TotalRemove(m - {k}, x);
      assert m - {x} - {k} == m - {k} - {x};
    }
  }

  lemma TotalSet<K>(m: map<K, int>, k: K, v: int)
    ensures Total(m[k := v]) == Total(m) - Get(m, k) + v
  {
    TotalRemove(m[k := v], k);
    if k in m {
      TotalRemove(m, k);
      assert m[k := v] - {k} == m - {k};
    } else {
      assert m[k := v] - {k} == m;
    }
  }

  lemma TotalDown<K>(m: map<K, int>, k: K)
    requires Get(m, k) > 0
    ensures Total(Down(m, k)) == Total(m) - 1
  {
    if m[k] == 1 {
      TotalRemove(m, k);
    } else {
      TotalSet(m, k, m[k] - 1);
    }
  }

  lemma AcquireBalanced(limits: Limits, s: State, e: Event, key: Key)
    requires e.Acquire? && Balanced(limits, s, key)
    ensures Balanced(limits, Next(limits, s, e), key)
  {
    var r := Answer(s.counts, limits, e.plugin, e.user, e.token);
    if r.Admitted? {
      LivePrefix(s.leases, LeaseRecord(r.id, true), |s.leases|, key);
    }
  }

  lemma ReleaseBalanced(limits: Limits, s: State, e: Event, key: Key)
    requires e.Release? && Balanced(limits, s, key)
    ensures Balanced(limits, Next(limits, s, e), key)
  {
    if e.lease < |s.leases| && s.leases[e.lease].open {
      LiveUpdate(s.leases, |s.leases|, e.lease, s.leases[e.lease].(open := false), key);
    }
  }

  /** An open lease is counted in each of its scopes. */
  lemma OpenLeaseCounted(limits: Limits, s: State, i: nat)
    requires forall key :: Balanced(limits, s, key)
    requires i < |s.leases| && s.leases[i].open
    ensures var id := s.leases[i].id;
            s.counts.global > 0 && Get(s.counts.plugin, id.plugin) > 0 && Get(s.counts.user, id.user) > 0
            && Get(s.counts.token, id.token) > 0
  {
    var id := s.leases[i].id;
    forall key | Covers(key, id) ensures CountOf(s.counts, key) > 0 {
      assert Balanced(limits, s, key);
      LiveAtLeast(s.leases, |s.leases|, i, key);
    }
    assert CountOf(s.counts, AnyKey) > 0 && CountOf(s.counts, PluginKey(id.plugin)) > 0;
    assert CountOf(s.counts, UserKey(id.user)) > 0 && CountOf(s.counts, TokenKey(id.token)) > 0;
  }

  lemma InvNext(limits: Limits, s: State, e: Event)
    requires Inv(limits, s)
    ensures Inv(limits, Next(limits, s, e))
  {
    var t := Next(limits, s, e);
    forall key ensures Balanced(limits, t, key) {
      assert Balanced(limits, s, key);
      if e.Acquire? {
        AcquireBalanced(limits, s, e, key);
      } else {
        ReleaseBalanced(limits, s, e, key);
      }
    }
    if t != s {
      var c := s.counts;
      if e.Acquire? {
        var id := Answer(c, limits, e.plugin, e.user, e.token).id;
        TotalSet(c.plugin, id.plugin, Get(c.plugin, id.plugin) + 1);
        TotalSet(c.user, id.user, Get(c.user, id.user) + 1);
        TotalSet(c.token, id.token, Get(c.token, id.token) + 1);
      } else {
        var id := s.leases[e.lease].id;
        OpenLeaseCounted(limits, s, e.lease);
        TotalDown(c.plugin, id.plugin);
        TotalDown(c.user, id.user);
        TotalDown(c.token, id.token);
      }
    }
  }

  /** In every state reachable by acquisitions and repeated releases the counters are exact. */
  lemma {:induction false} InvRun(limits: Limits, s: State, events: seq<Event>)
    requires Inv(limits, s)
    ensures Inv(limits, Run(limits, s, events))
    decreases |events|
  {
    if events != [] {
      InvNext(limits, s, events[0]);
      InvRun(limits, Next(limits, s, events[0]), events[1..]);
    }
  }

  /** Counters start at zero, so every run from the empty limiter is exact. */
  lemma CountersAreExact(limits: Limits, events: seq<Event>)
    ensures Inv(limits, Run(limits, State(NO_COUNTS, []), events))
  {
    var s := State(NO_COUNTS, []);
    assert forall key :: Balanced(limits, s, key);
    InvRun(limits, s, events);
  }

  /**
    In a reachable state a well-formed acquisition is refused exactly when one of its four scopes already
    has as many live leases as its limit allows.
   */
  lemma RefusedIffFull(limits: Limits, s: State, plugin: string, user: int, token: int)
    requires Inv(limits, s) && ValidIdentity(plugin, user, token)
    ensures var id := Identity(TrimSpace(plugin), user, token);
            Answer(s.counts, limits, plugin, user, token).Full?
            <==> exists key :: Covers(key, id) && Live(s.leases, |s.leases|, key) >= LimitOf(limits, key)
  {
    var id := Identity(TrimSpace(plugin), user, token);
    forall key ensures Live(s.leases, |s.leases|, key) == CountOf(s.counts, key) {
      assert Balanced(limits, s, key);
    }
    assert Covers(AnyKey, id) && Covers(PluginKey(id.plugin), id) && Covers(UserKey(user), id);
    assert Covers(TokenKey(token), id);
  }

  function ScopeOf(key: Key): Scope {
    match key
    case AnyKey => GlobalScope
    case PluginKey(_) => PluginScope
    case UserKey(_) => UserScope
    case TokenKey(_) => TokenScope
  }

  function Precedence(key: Key): nat {
    match key
    case AnyKey => 0
    case PluginKey(_) => 1
    case UserKey(_) => 2
    case TokenKey(_) => 3
  }

  /** A refusal names a scope, with its limit, exactly when that scope is the first full one. */
  lemma NamesFirstFull(limits: Limits, s: State, plugin: string, user: int, token: int, key: Key)
    requires Inv(limits, s) && ValidIdentity(plugin, user, token)
    requires Covers(key, Identity(TrimSpace(plugin), user, token))
    ensures var id := Identity(TrimSpace(plugin), user, token);
            (var r := Answer(s.counts, limits, plugin, user, token); r.Full? && r.scope == ScopeOf(key))
            <==> && Live(s.leases, |s.leases|, key) >= LimitOf(limits, key)
                 && forall k :: Covers(k, id) && Precedence(k) < Precedence(key) ==>
                      Live(s.leases, |s.leases|, k) < LimitOf(limits, k)
    ensures var r := Answer(s.counts, limits, plugin, user, token);
            r.Full? && r.scope == ScopeOf(key) ==> r.limit == LimitOf(limits, key)
  {
    var id := Identity(TrimSpace(plugin), user, token);
    forall k ensures Live(s.leases, |s.leases|, k) == CountOf(s.counts, k) {
      assert Balanced(limits, s, k);
    }
    assert Covers(AnyKey, id) && Covers(PluginKey(id.plugin), id) && Covers(UserKey(user), id);
    assert Covers(TokenKey(token), id);
  }

  /** Releasing every lease, in any order and however often, empties the limiter. */
  lemma AllReleased(limits: Limits, s: State)
    requires Inv(limits, s) && forall i :: 0 <= i < |s.leases| ==> !s.leases[i].open
    ensures s.counts == NO_COUNTS
  {
    forall key ensures CountOf(s.counts, key) == 0 {
      assert Balanced(limits, s, key);
      NoneLive(s.leases, |s.leases|, key);
    }
    assert CountOf(s.counts, AnyKey) == 0;
    forall k ensures k !in s.counts.plugin {
      assert CountOf(s.counts, PluginKey(k)) == 0;
    }
    forall k ensures k !in s.counts.user && k !in s.counts.token {
      assert CountOf(s.counts, UserKey(k)) == 0 && CountOf(s.counts, TokenKey(k)) == 0;
    }
  }

  lemma {:induction false} NoneLive(leases: seq<LeaseRecord>, n: nat, key: Key)
    requires n <= |leases| && forall i :: 0 <= i < |leases| ==> !leases[i].open
    ensures Live(leases, n, key) == 0
  {
    if n > 0 {
      NoneLive(leases, n - 1, key);
    }
  }

  // ---------------------------------------------------------------- written out

  /** The positions of the open leases that a key covers. */
  function Held(leases: seq<LeaseRecord>, n: nat, key: Key): set<int>
    requires n <= |leases|
  {
    set i | 0 <= i < n && leases[i].open && Covers(key, leases[i].id)
  }

  lemma HeldStep(leases: seq<LeaseRecord>, n: nat, key: Key)
    requires 0 < n <= |leases|
    ensures Held(leases, n, key)
            == Held(leases, n - 1, key) + if Counted(leases[n - 1], key) == 1 then {n - 1} else {}
  {
  }

  /** Counting live leases is counting positions. */
  lemma {:induction false} LiveIsSize(leases: seq<LeaseRecord>, n: nat, key: Key)
    requires n <= |leases|
    ensures Live(leases, n, key) == |Held(leases, n, key)|
  {
    if n > 0 {
      LiveIsSize(leases, n - 1, key);
      HeldStep(leases, n, key);
    } else {
      assert Held(leases, n, key) == {};
    }
  }

  /**
    A well-formed acquisition is refused exactly when the open leases, those of the plugin, those of the user
    or those of the token have reached the limit for them.
   */
  lemma RefusedWrittenOut(limits: Limits, s: State, plugin: string, user: int, token: int)
    requires Inv(limits, s) && TrimSpace(plugin) != "" && user > 0 && token > 0
    ensures var n := |s.leases|;
            Answer(s.counts, limits, plugin, user, token).Full?
            <==> || |set i | 0 <= i < n && s.leases[i].open| >= limits.global
                 || |set i | 0 <= i < n && s.leases[i].open && s.leases[i].id.plugin == TrimSpace(plugin)|
                    >= limits.perPlugin
                 || |set i | 0 <= i < n && s.leases[i].open && s.leases[i].id.user == user| >= limits.perUser
                 || |set i | 0 <= i < n && s.leases[i].open && s.leases[i].id.token == token| >= limits.perToken
  {
    var n, leases, name := |s.leases|, s.leases, TrimSpace(plugin);
    RefusedIffFull(limits, s, plugin, user, token);
    LiveIsSize(leases, n, AnyKey);
    LiveIsSize(leases, n, PluginKey(name));
    LiveIsSize(leases, n, UserKey(user));
    LiveIsSize(leases, n, TokenKey(token));
    assert Held(leases, n, AnyKey) == set i | 0 <= i < n && leases[i].open;
    assert Held(leases, n, PluginKey(name)) == set i | 0 <= i < n && leases[i].open && leases[i].id.plugin == name;
    assert Held(leases, n, UserKey(user)) == set i | 0 <= i < n && leases[i].open && leases[i].id.user == user;
    assert Held(leases, n, TokenKey(token)) == set i | 0 <= i < n && leases[i].open && leases[i].id.token == token;
    var id := Identity(name, user, token);
    assert Covers(AnyKey, id) && Covers(PluginKey(name), id) && Covers(UserKey(user), id);
    assert Covers(TokenKey(token), id);
  }

  /** Invalid exactly when the plugin is blank or an identifier is not positive. */
  lemma InvalidWrittenOut(c: Counts, limits: Limits, plugin: string, user: int, token: int)
    ensures Answer(c, limits, plugin, user, token).Invalid? <==> TrimSpace(plugin) == "" || user <= 0 || token <= 0
  {
  }
}
