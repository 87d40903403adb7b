/**
  Reconciliation of a channel's model list with the list its upstream offers:
  detection computes what to add and remove, application consumes an operator's selection.
 */
module UpstreamModels {
  import opened Text
  import opened ModelNames
  import opened Wrappers

  /** Whether a regular expression compiles and matches a name; the regexp engine stays abstract. */
  type Matcher = (string, string) -> bool

  const REGEX_PREFIX := "regex:"

  predicate RegexShaped(rule: string) {
    HasPrefix(rule, REGEX_PREFIX)
  }

  predicate RuleMatches(rule: string, name: string, m: Matcher) {
    if RegexShaped(rule) then m(TrimSpace(rule[|REGEX_PREFIX|..]), name) else rule == name
  }

  predicate Ignored(rules: seq<string>, name: string, m: Matcher) {
    exists rule :: rule in rules && RuleMatches(rule, name, m)
  }

  datatype Pending = Pending(adds: seq<string>, removes: seq<string>)

  /** Upstream names covered neither by the local list nor by a redirect target. */
  function Uncovered(local: seq<string>, upstream: seq<string>, mapping: map<string, string>): set<string> {
    set u | u in Normalize(upstream) && u !in Normalize(local) && u !in mapping.Values
  }

  function Detect(local: seq<string>, upstream: seq<string>, ignored: seq<string>,
                  mapping: map<string, string>, m: Matcher): Pending {
    var loc, up, rules := Normalize(local), Normalize(upstream), Normalize(ignored);
    Pending(
      Normalize(Keep(up, set u | u in Uncovered(local, upstream, mapping) && !Ignored(rules, u, m))),
      Normalize(Keep(loc, set l | l in loc && l !in mapping.Keys && l !in up)))
  }

  /** `collectPendingUpstreamModelChangesFromModels` */
  method CollectPending(localModels: seq<string>, upstreamModels: seq<string>, ignoredModels: seq<string>,
                        mapping: map<string, string>, m: Matcher) returns (pending: Pending)
    ensures pending == Detect(localModels, upstreamModels, ignoredModels, mapping, m)
  {
    var local, upstream, rules := Normalize(localModels), Normalize(upstreamModels), Normalize(ignoredModels);
    var localSet := CollectSet(local);
    var upstreamSet := CollectSet(upstream);
    var sources, targets := CollectRedirects(mapping);
    var covered := localSet + targets;

    var adds := CollectAdds(upstream, covered, rules, m);
    var removes := CollectRemoves(local, sources, upstreamSet);
    assert (set u | u in upstream && u !in covered && !Ignored(rules, u, m))
           == set u | u in Uncovered(localModels, upstreamModels, mapping) && !Ignored(rules, u, m);
    assert (set l | l in local && l !in sources && l !in upstreamSet)
           == set l | l in local && l !in mapping.Keys && l !in upstream;
    pending := Pending(Normalize(adds), Normalize(removes));
  }

  method CollectAdds(upstream: seq<string>, covered: set<string>, rules: seq<string>, m: Matcher)
    returns (adds: seq<string>)
    ensures adds == Keep(upstream, set u | u in upstream && u !in covered && !Ignored(rules, u, m))
  {
    adds := [];
    ghost var wanted := set u | u in upstream && u !in covered && !Ignored(rules, u, m);
    for i := 0 to |upstream|
      invariant adds == Keep(upstream[..i], wanted)
    {
      assert upstream[..i + 1][..i] == upstream[..i];
      var hit := IgnoreListHits(rules, upstream[i], m);
      if upstream[i] !in covered && !hit {
        adds := adds + [upstream[i]];
      }
    }
    assert upstream[..|upstream|] == upstream;
  }

  method CollectRemoves(local: seq<string>, sources: set<string>, upstream: set<string>) returns (removes: seq<string>)
    ensures removes == Keep(local, set l | l in local && l !in sources && l !in upstream)
  {
    removes := [];
    ghost var stale := set l | l in local && l !in sources && l !in upstream;
    for i := 0 to |local|
      invariant removes == Keep(local[..i], stale)
    {
      assert local[..i + 1][..i] == local[..i];
      if local[i] !in sources && local[i] !in upstream {
        removes := removes + [local[i]];
      }
    }
    assert local[..|local|] == local;
  }

  method CollectRedirects(mapping: map<string, string>) returns (sources: set<string>, targets: set<string>)
    ensures sources == mapping.Keys && targets == mapping.Values
  {
    sources, targets := {}, {};
    var rest := mapping.Keys;
    while rest != {}
      invariant rest <= mapping.Keys
      invariant sources == mapping.Keys - rest
      invariant targets == set source | source in mapping.Keys - rest :: mapping[source]
      decreases |rest|
    {
      var source :| source in rest;
      rest := rest - {source};
      sources := sources + {source};
      targets := targets + {mapping[source]};
    }
    assert targets == mapping.Values;
  }

  /** `lo.ContainsBy` over the ignore rules. */
  method IgnoreListHits(rules: seq<string>, name: string, m: Matcher) returns (hit: bool)
    ensures hit <==> Ignored(rules, name, m)
  {
    hit := false;
    for i := 0 to |rules|
      invariant !hit
      invariant forall k :: 0 <= k < i ==> !RuleMatches(rules[k], name, m)
    {
      if RuleMatches(rules[i], name, m) {
        return true;
      }
    }
  }

  // ---------------------------------------------------------------- channel record

  /** The stored fields of a channel that reconciliation reads and writes. */
  datatype ChannelState = ChannelState(
    models: string,
    ignored: seq<string>,
    detected: seq<string>,
    removed: seq<string>,
    lastCheck: int)

  /** `Channel.GetModels` */
  function GetModels(models: string): seq<string> {
    if models == "" then [] else Split(TrimChar(models, ','), ',')
  }

  datatype Applied = Applied(
    added: seq<string>,
    removedNow: seq<string>,
    remaining: seq<string>,
    remainingRemove: seq<string>,
    changed: bool,
    next: ChannelState)

  function SelectedAdds(st: ChannelState, addInput: seq<string>): seq<string> {
    Intersect(addInput, Normalize(st.detected))
  }

  function SelectedIgnores(st: ChannelState, ignoreInput: seq<string>): seq<string> {
    Intersect(ignoreInput, Normalize(st.detected))
  }

  function SelectedRemoves(st: ChannelState, addInput: seq<string>, removeInput: seq<string>): seq<string> {
    Subtract(Intersect(removeInput, Normalize(st.removed)), SelectedAdds(st, addInput))
  }

  /** `applySelectedModelChanges`: an add wins over a remove of the same name. */
  function ApplySelected(origin: seq<string>, addModels: seq<string>, removeModels: seq<string>): seq<string> {
    var adds := Normalize(addModels);
    Subtract(Merge(origin, adds), Subtract(Normalize(removeModels), adds))
  }

  function NextModels(st: ChannelState, addInput: seq<string>, removeInput: seq<string>): seq<string> {
    ApplySelected(Normalize(GetModels(st.models)), SelectedAdds(st, addInput),
                  SelectedRemoves(st, addInput, removeInput))
  }

  function NextIgnored(st: ChannelState, addInput: seq<string>, ignoreInput: seq<string>): seq<string> {
    var merged := Merge(st.ignored, SelectedIgnores(st, ignoreInput));
    var adds := SelectedAdds(st, addInput);
    if |adds| > 0 then Subtract(merged, adds) else merged
  }

  function Apply(st: ChannelState, addInput: seq<string>, ignoreInput: seq<string>, removeInput: seq<string>,
                 now: int): Applied {
    var adds := SelectedAdds(st, addInput);
    var ignores := SelectedIgnores(st, ignoreInput);
    var removes := SelectedRemoves(st, addInput, removeInput);
    var origin := Normalize(GetModels(st.models));
    var next := NextModels(st, addInput, removeInput);
    var remaining := Subtract(Normalize(st.detected), adds + ignores);
    var remainingRemove := Subtract(Normalize(st.removed), removes);
    Applied(adds, removes, remaining, remainingRemove, origin != next,
            ChannelState(
              if origin != next then Join(next, ',') else st.models,
              NextIgnored(st, addInput, ignoreInput),
              remaining,
              remainingRemove,
              now))
  }

  /** The state after a check whose detection found `pending`, with and without automatic adding. */
  function Checked(st: ChannelState, pending: Pending, autoSync: bool, now: int): ChannelState {
    if autoSync && |pending.adds| > 0 then
      var origin := Normalize(GetModels(st.models));
      var merged := Merge(origin, pending.adds);
      ChannelState(if |merged| > |origin| then Join(merged, ',') else st.models,
                   st.ignored, [], pending.removes, now)
    else
      ChannelState(st.models, st.ignored, pending.adds, pending.removes, now)
  }

  /** The selected names that are pending; an add wins over a remove of the same name. */
  method Select(st: ChannelState, addInput: seq<string>, ignoreInput: seq<string>, removeInput: seq<string>)
    returns (adds: seq<string>, ignores: seq<string>, removes: seq<string>)
    ensures adds == SelectedAdds(st, addInput) && ignores == SelectedIgnores(st, ignoreInput)
    ensures removes == SelectedRemoves(st, addInput, removeInput)
  {
    adds := IntersectModelNames(addInput, Normalize(st.detected));
    ignores := IntersectModelNames(ignoreInput, Normalize(st.detected));
    removes := IntersectModelNames(removeInput, Normalize(st.removed));
    removes := SubtractModelNames(removes, adds);
  }

  method UpdatedRules(st: ChannelState, adds: seq<string>, ignores: seq<string>) returns (rules: seq<string>)
    ensures rules == if |adds| > 0 then Subtract(Merge(st.ignored, ignores), adds) else Merge(st.ignored, ignores)
  {
    rules := MergeModelNames(st.ignored, ignores);
    if |adds| > 0 {
      rules := SubtractModelNames(rules, adds);
    }
  }

  /** What an application returns and the fields it leaves. */
  method PlanUpdates(st: ChannelState, addInput: seq<string>, ignoreInput: seq<string>, removeInput: seq<string>,
                     now: int)
    returns (r: Applied)
    ensures r == Apply(st, addInput, ignoreInput, removeInput, now)
  {
    var adds, ignores, removes := Select(st, addInput, ignoreInput, removeInput);
    var origin := Normalize(GetModels(st.models));
    var next := ApplySelected(origin, adds, removes);
    var models := st.models;
    if origin != next {
      models := Join(next, ',');
    }
    var rules := UpdatedRules(st, adds, ignores);
    var remaining := SubtractModelNames(Normalize(st.detected), adds + ignores);
    var remainingRemove := SubtractModelNames(Normalize(st.removed), removes);
    r := Applied(adds, removes, remaining, remainingRemove, origin != next,
                 ChannelState(models, rules, remaining, remainingRemove, now));
  }

  /** The fields a check leaves, and how many names it added by itself. */
  method PlanCheck(st: ChannelState, pending: Pending, autoSync: bool, now: int)
    returns (next: ChannelState, autoAdded: nat)
    requires var origin := Normalize(GetModels(st.models));
             |Merge(origin, pending.adds)| == |origin| + |pending.adds|
    ensures next == Checked(st, pending, autoSync, now)
    ensures autoAdded == if autoSync then |pending.adds| else 0
  {
    autoAdded := 0;
    next := st.(lastCheck := now, removed := pending.removes);
    if autoSync && |pending.adds| > 0 {
      var origin := Normalize(GetModels(st.models));
      var merged := MergeModelNames(origin, pending.adds);
      NormalizeNormal(origin);
      if |merged| > |origin| {
        next := next.(models := Join(merged, ','));
        autoAdded := |merged| - |origin|;
      }
      next := next.(detected := []);
    } else {
      next := next.(detected := pending.adds);
    }
  }

  predicate TooSoon(st: ChannelState, force: bool, minInterval: int, now: int) {
    !force && st.lastCheck > 0 && now - st.lastCheck < minInterval
  }

  class Channel {
    var models: string
    var ignored: seq<string>
    var detected: seq<string>
    var removed: seq<string>
    var lastCheck: int
    const mapping: map<string, string>

    function State(): ChannelState
      reads this
    {
      ChannelState(models, ignored, detected, removed, lastCheck)
    }

    constructor (models: string, mapping: map<string, string>)
      ensures State() == ChannelState(models, [], [], [], 0) && this.mapping == mapping
    {
      this.models, ignored, detected, removed, lastCheck := models, [], [], [], 0;
      this.mapping := mapping;
    }

    /** `applyChannelUpstreamModelUpdates`, with the database write succeeding. */
    method ApplyUpdates(addInput: seq<string>, ignoreInput: seq<string>, removeInput: seq<string>, now: int)
      returns (r: Applied)
      modifies this
      ensures r == Apply(old(State()), addInput, ignoreInput, removeInput, now)
      ensures State() == r.next
    {
      r := PlanUpdates(State(), addInput, ignoreInput, removeInput, now);
      Store(r.next);
    }

    method Store(next: ChannelState)
      modifies this
      ensures State() == next
    {
      models, ignored, detected, removed, lastCheck := next.models, next.ignored, next.detected, next.removed,
                                                       next.lastCheck;
    }

    /**
      `checkAndPersistChannelUpstreamModelUpdates`, with the database writes succeeding: nothing happens before
      the interval has passed, and a failed fetch only records the time.
     */
    method CheckUpdates(fetched: Option<seq<string>>, m: Matcher, force: bool, minInterval: int, allowAutoApply: bool,
                        autoSyncEnabled: bool, now: int)
      returns (failed: bool, changed: bool, autoAdded: nat)
      modifies this
      ensures TooSoon(old(State()), force, minInterval, now) ==>
                State() == old(State()) && !failed && autoAdded == 0
      ensures !TooSoon(old(State()), force, minInterval, now) && fetched.None? ==>
                State() == old(State()).(lastCheck := now) && failed && autoAdded == 0
      ensures !TooSoon(old(State()), force, minInterval, now) && fetched.Some? ==>
                !failed && State() == Checked(old(State()),
                                              Detect(old(GetModels(models)), fetched.value, old(ignored), mapping, m),
                                              allowAutoApply && autoSyncEnabled, now)
      ensures !TooSoon(old(State()), force, minInterval, now) && fetched.Some? ==>
                autoAdded == if allowAutoApply && autoSyncEnabled
                             then |Detect(old(GetModels(models)), fetched.value, old(ignored), mapping, m).adds|
                             else 0
      ensures changed <==> autoAdded > 0
    {
      failed, changed, autoAdded := false, false, 0;
      if !force && lastCheck > 0 && now - lastCheck < minInterval {
        return;
      }
      if fetched.None? {
        lastCheck := now;
        failed := true;
        return;
      }
      changed, autoAdded := Reconcile(fetched.value, m, allowAutoApply && autoSyncEnabled, now);
    }

    method Reconcile(upstream: seq<string>, m: Matcher, autoSync: bool, now: int)
      returns (changed: bool, autoAdded: nat)
      modifies this
      ensures State() == Checked(old(State()), Detect(old(GetModels(models)), upstream, old(ignored), mapping, m),
                                 autoSync, now)
      ensures changed <==> autoAdded > 0
      ensures autoAdded
              == if autoSync then |Detect(old(GetModels(models)), upstream, old(ignored), mapping, m).adds| else 0
    {
      var pending := CollectPending(GetModels(models), upstream, ignored, mapping, m);
      AutoAddCounts(GetModels(models), upstream, ignored, mapping, m);
      var next;
      next, autoAdded := PlanCheck(State(), pending, autoSync, now);
      changed := autoAdded > 0;
      Store(next);
    }
  }

  // ---------------------------------------------------------------- detection and application commute

  /** Detection's closing normalisation changes nothing. */
  lemma DetectShape(local: seq<string>, upstream: seq<string>, ignored: seq<string>,
                    mapping: map<string, string>, m: Matcher)
    ensures var loc, up, rules := Normalize(local), Normalize(upstream), Normalize(ignored);
            var p := Detect(local, upstream, ignored, mapping, m);
            && Normal(p.adds) && Normal(p.removes)
            && p.adds == Keep(up, set u | u in Uncovered(local, upstream, mapping) && !Ignored(rules, u, m))
            && p.removes == Keep(loc, set l | l in loc && l !in mapping.Keys && l !in up)
  {
    var loc, up, rules := Normalize(local), Normalize(upstream), Normalize(ignored);
    var wanted := set u | u in Uncovered(local, upstream, mapping) && !Ignored(rules, u, m);
    var stale := set l | l in loc && l !in mapping.Keys && l !in up;
    KeepNormal(up, wanted);
    KeepNormal(loc, stale);
    NormalizeNormal(Keep(up, wanted));
    NormalizeNormal(Keep(loc, stale));
  }

  /**
    What detection offers for adding is disjoint from the local list, and what it offers for removal is
    not upstream.
   */
  lemma DetectMembers(local: seq<string>, upstream: seq<string>, ignored: seq<string>,
                      mapping: map<string, string>, m: Matcher)
    ensures var p := Detect(local, upstream, ignored, mapping, m);
            && Normal(p.adds) && Normal(p.removes)
            && (forall u :: u in p.adds
                            <==> u in Uncovered(local, upstream, mapping) && !Ignored(Normalize(ignored), u, m))
            && Elems(p.adds) !! Elems(Normalize(local))
            && Elems(p.adds) <= Elems(Normalize(upstream))
            && Elems(p.removes) !! Elems(Normalize(upstream))
            && Elems(p.removes) <= Elems(Normalize(local))
  {
    DetectShape(local, upstream, ignored, mapping, m);
  }

  lemma AutoAddCounts(local: seq<string>, upstream: seq<string>, ignored: seq<string>,
                      mapping: map<string, string>, m: Matcher)
    ensures var adds := Detect(local, upstream, ignored, mapping, m).adds;
            |Merge(Normalize(local), adds)| == |Normalize(local)| + |adds|
  {
    DetectMembers(local, upstream, ignored, mapping, m);
    MergeDisjoint(Normalize(local), Detect(local, upstream, ignored, mapping, m).adds);
  }

  /** The pending lists recorded in `st` are what detection finds now. */
  predicate Recorded(st: ChannelState, upstream: seq<string>, mapping: map<string, string>, m: Matcher) {
    Pending(st.detected, st.removed) == Detect(GetModels(st.models), upstream, st.ignored, mapping, m)
  }

  lemma SelectionShape(st: ChannelState, upstream: seq<string>, mapping: map<string, string>, m: Matcher,
                       addInput: seq<string>, ignoreInput: seq<string>, removeInput: seq<string>, now: int)
    requires Recorded(st, upstream, mapping, m)
    ensures var r := Apply(st, addInput, ignoreInput, removeInput, now);
            var ignores := SelectedIgnores(st, ignoreInput);
            && Normal(st.detected) && Normal(st.removed)
            && Normal(r.added) && Elems(r.added) <= Elems(st.detected)
            && Normal(ignores) && Elems(ignores) <= Elems(st.detected)
            && Normal(r.removedNow) && Elems(r.removedNow) <= Elems(st.removed)
            && r.remaining == Drop(st.detected, Elems(r.added) + Elems(ignores))
            && r.remainingRemove == Drop(st.removed, Elems(r.removedNow))
            && Elems(Normalize(r.next.ignored)) == Elems(Normalize(st.ignored)) + Elems(ignores) - Elems(r.added)
  {
    var r := Apply(st, addInput, ignoreInput, removeInput, now);
    var ignores := SelectedIgnores(st, ignoreInput);
    DetectShape(GetModels(st.models), upstream, st.ignored, mapping, m);
    NormalizeNormal(st.detected);
    NormalizeNormal(st.removed);
    KeepNormal(Normalize(addInput), Elems(st.detected));
    KeepNormal(Normalize(ignoreInput), Elems(st.detected));
    var picked := Intersect(removeInput, st.removed);
    KeepNormal(Normalize(removeInput), Elems(st.removed));
    NormalizeNormal(picked);
    NormalizeNormal(r.added);
    KeepNormal(picked, Elems(picked) - Elems(r.added));
    NormalizeNormal(r.removedNow);
    SubtractMembers(st.detected, r.added, ignores);
    IgnoredMembers(st, addInput, ignoreInput);
  }

  lemma SubtractMembers(base: seq<string>, a: seq<string>, b: seq<string>)
    requires Normal(base) && Normal(a) && Normal(b)
    ensures Subtract(base, a + b) == Drop(base, Elems(a) + Elems(b))
  {
    NormalizeNormal(base);
    forall x ensures x in Normalize(a + b) <==> x in a || x in b {
      NormalizeMembers(a + b, x);
      if x in a || x in b {
        TrimSpaceTrims(x);
        assert x in a + b;
      } else if x in Normalize(a + b) {
        var y :| y in a + b && TrimSpace(y) == x;
        TrimSpaceTrims(y);
      }
    }
    assert Elems(Normalize(a + b)) == Elems(a) + Elems(b);
  }

  lemma IgnoredMembers(st: ChannelState, addInput: seq<string>, ignoreInput: seq<string>)
    requires Normal(SelectedAdds(st, addInput)) && Normal(SelectedIgnores(st, ignoreInput))
    ensures Elems(Normalize(NextIgnored(st, addInput, ignoreInput)))
            == Elems(Normalize(st.ignored))
                + Elems(SelectedIgnores(st, ignoreInput)) - Elems(SelectedAdds(st, addInput))
  {
    var adds, ignores := SelectedAdds(st, addInput), SelectedIgnores(st, ignoreInput);
    var merged := Merge(st.ignored, ignores);
    MergeNormal(st.ignored, ignores);
    NormalizeNormal(ignores);
    NormalizeNormal(merged);
    NormalizeNormal(adds);
    KeepNormal(merged, Elems(merged) - Elems(adds));
    NormalizeNormal(NextIgnored(st, addInput, ignoreInput));
  }

  /** Application keeps the surviving local names in order and appends the accepted ones. */
  lemma NextModelsShape(st: ChannelState, upstream: seq<string>, mapping: map<string, string>, m: Matcher,
                        addInput: seq<string>, ignoreInput: seq<string>, removeInput: seq<string>, now: int)
    requires Recorded(st, upstream, mapping, m)
    ensures var r := Apply(st, addInput, ignoreInput, removeInput, now);
            var origin := Normalize(GetModels(st.models));
            var next := NextModels(st, addInput, removeInput);
            && Normal(next)
            && next == Drop(origin, Elems(r.removedNow)) + r.added
            && Elems(r.added) !! Elems(origin)
  {
    var r := Apply(st, addInput, ignoreInput, removeInput, now);
    var local := GetModels(st.models);
    var origin := Normalize(local);
    SelectionShape(st, upstream, mapping, m, addInput, ignoreInput, removeInput, now);
    DetectMembers(local, upstream, st.ignored, mapping, m);
    MergeDisjoint(origin, r.added);
    NormalizeNormal(r.added);
    NormalizeNormal(r.removedNow);
    KeepAll(r.removedNow, Elems(r.removedNow) - Elems(r.added));
    NormalizeNormal(origin + r.added);
    var kept := Elems(origin + r.added) - Elems(r.removedNow);
    KeepNormal(origin + r.added, kept);
    KeepAppend(origin, r.added, kept);
    KeepSame(origin, kept, Elems(origin) - Elems(r.removedNow));
    KeepAll(r.added, kept);
  }

  /** Removal always commutes: what is still stale afterwards is exactly what was left unselected. */
  lemma RemovesCommute(st: ChannelState, upstream: seq<string>, mapping: map<string, string>, m: Matcher,
                       addInput: seq<string>, ignoreInput: seq<string>, removeInput: seq<string>, now: int)
    requires Recorded(st, upstream, mapping, m)
    ensures var r := Apply(st, addInput, ignoreInput, removeInput, now);
            Detect(NextModels(st, addInput, removeInput), upstream, r.next.ignored, mapping, m).removes
                == r.remainingRemove
  {
    var r := Apply(st, addInput, ignoreInput, removeInput, now);
    var local, next := GetModels(st.models), NextModels(st, addInput, removeInput);
    var origin, up, gone := Normalize(local), Normalize(upstream), Elems(r.removedNow);
    var stale := set l | l in origin && l !in mapping.Keys && l !in up;
    var staleNext := set l | l in next && l !in mapping.Keys && l !in up;
    NextModelsShape(st, upstream, mapping, m, addInput, ignoreInput, removeInput, now);
    assert Detect(next, upstream, r.next.ignored, mapping, m).removes == Keep(next, staleNext) by {
      NormalizeNormal(next);
      DetectShape(next, upstream, r.next.ignored, mapping, m);
    }
    assert st.removed == Keep(origin, stale) by {
      DetectShape(local, upstream, st.ignored, mapping, m);
    }
    assert r.remainingRemove == Drop(st.removed, gone) && Elems(r.added) <= Elems(up) by {
      SelectionShape(st, upstream, mapping, m, addInput, ignoreInput, removeInput, now);
      DetectMembers(local, upstream, st.ignored, mapping, m);
    }
    KeepAppend(Drop(origin, gone), r.added, staleNext);
    forall x | x in r.added ensures x !in staleNext {
      assert x in Elems(up);
    }
    KeepSame(r.added, staleNext, {});
    KeepNothing(r.added);
    KeepKeep(origin, Elems(origin) - gone, staleNext);
    forall x | x in origin
      ensures x in (Elems(origin) - gone) * staleNext <==> x in stale && x !in gone
    {
      assert x in Drop(origin, gone) <==> x !in gone;
    }
    DropKept(origin, stale, gone, (Elems(origin) - gone) * staleNext);
  }

  /**
    What must hold of the selected names that look like a `regex:` rule. Ignoring such a name installs a
    rule, adding such a name deletes the rule of the same text; nothing else can disturb detection. What
    becomes of the names in `exempt` does not matter.
   */
  predicate RegexSafeBut(st: ChannelState, upstream: seq<string>, mapping: map<string, string>, m: Matcher,
                         addInput: seq<string>, ignoreInput: seq<string>, exempt: set<string>) {
    var adds, ignores := SelectedAdds(st, addInput), SelectedIgnores(st, ignoreInput);
    var rules := NextIgnored(st, addInput, ignoreInput);
    // an ignored name of that shape is matched by some rule in force
    && (forall u :: u in ignores && u !in adds && u !in exempt && RegexShaped(u) ==> Ignored(Normalize(rules), u, m))
    // and, as a rule, matches no name that is to stay pending
    && (forall u, n :: u in st.detected && u !in adds && u !in ignores && u !in exempt
                       && n in ignores && n !in adds && RegexShaped(n)
                       ==> !RuleMatches(n, u, m))
    // a rule deleted by an accepted name was not the only one hiding an upstream name
    && (forall u, a :: u in Uncovered(GetModels(st.models), upstream, mapping) && u !in st.detected && u !in exempt
                       && a in adds && a in Normalize(st.ignored) && RegexShaped(a) && RuleMatches(a, u, m)
                       ==> Ignored(Normalize(rules), u, m))
  }

  predicate RegexSafe(st: ChannelState, upstream: seq<string>, mapping: map<string, string>, m: Matcher,
                      addInput: seq<string>, ignoreInput: seq<string>) {
    RegexSafeBut(st, upstream, mapping, m, addInput, ignoreInput, {})
  }

  /** One upstream name is pending after the application iff it was recorded as remaining. */
  ghost predicate NameCommutes(st: ChannelState, upstream: seq<string>, mapping: map<string, string>, m: Matcher,
                               addInput: seq<string>, ignoreInput: seq<string>, u: string) {
    var adds, ignores := SelectedAdds(st, addInput), SelectedIgnores(st, ignoreInput);
    (u in Uncovered(GetModels(st.models), upstream, mapping) && u !in adds
     && !Ignored(Normalize(NextIgnored(st, addInput, ignoreInput)), u, m))
    <==> (u in st.detected && u !in adds && u !in ignores)
  }

  /** The rules in force afterwards, and where the selected names come from. */
  lemma RulesAfter(st: ChannelState, upstream: seq<string>, mapping: map<string, string>, m: Matcher,
                   addInput: seq<string>, ignoreInput: seq<string>)
    requires Recorded(st, upstream, mapping, m)
    ensures var adds, ignores := SelectedAdds(st, addInput), SelectedIgnores(st, ignoreInput);
            && (forall x :: x in Normalize(NextIgnored(st, addInput, ignoreInput))
                            <==> (x in Normalize(st.ignored) || x in ignores) && x !in adds)
            && (forall u :: u in adds || u in ignores ==> u in st.detected)
            && (forall u :: u in st.detected
                            <==> u in Uncovered(GetModels(st.models), upstream, mapping)
                                 && !Ignored(Normalize(st.ignored), u, m))
  {
    SelectionShape(st, upstream, mapping, m, addInput, ignoreInput, [], 0);
    DetectMembers(GetModels(st.models), upstream, st.ignored, mapping, m);
    var adds, ignores := SelectedAdds(st, addInput), SelectedIgnores(st, ignoreInput);
    forall x
      ensures x in Normalize(NextIgnored(st, addInput, ignoreInput))
              <==> (x in Normalize(st.ignored) || x in ignores) && x !in adds
    {
      assert x in Elems(Normalize(NextIgnored(st, addInput, ignoreInput)))
             <==> x in Elems(Normalize(st.ignored)) + Elems(ignores) - Elems(adds);
    }
    forall u | u in adds || u in ignores ensures u in st.detected {
      assert u in Elems(adds) || u in Elems(ignores);
    }
  }

  lemma SafeNameCommutes(st: ChannelState, upstream: seq<string>, mapping: map<string, string>, m: Matcher,
                         addInput: seq<string>, ignoreInput: seq<string>, exempt: set<string>, u: string)
    requires Recorded(st, upstream, mapping, m) && u !in exempt
    requires RegexSafeBut(st, upstream, mapping, m, addInput, ignoreInput, exempt)
    ensures NameCommutes(st, upstream, mapping, m, addInput, ignoreInput, u)
  {
    var adds, ignores := SelectedAdds(st, addInput), SelectedIgnores(st, ignoreInput);
    var before, after := Normalize(st.ignored), Normalize(NextIgnored(st, addInput, ignoreInput));
    RulesAfter(st, upstream, mapping, m, addInput, ignoreInput);
    if u in Uncovered(GetModels(st.models), upstream, mapping) && u !in adds {
      if u in ignores {
        assert !RegexShaped(u) ==> RuleMatches(u, u, m);
      } else if u in st.detected {
        assert !Ignored(before, u, m);
      } else {
        assert Ignored(before, u, m);
        var rule :| rule in before && RuleMatches(rule, u, m);
        if rule !in adds {
          assert rule in after;
        }
      }
    }
  }

  ghost predicate NamesCommuteBut(st: ChannelState, upstream: seq<string>, mapping: map<string, string>, m: Matcher,
                                  addInput: seq<string>, ignoreInput: seq<string>, exempt: set<string>) {
    forall u :: u in Normalize(upstream) && u !in exempt ==>
      NameCommutes(st, upstream, mapping, m, addInput, ignoreInput, u)
  }

  lemma CommutingNamesSafe(st: ChannelState, upstream: seq<string>, mapping: map<string, string>, m: Matcher,
                           addInput: seq<string>, ignoreInput: seq<string>, exempt: set<string>)
    requires Recorded(st, upstream, mapping, m)
    requires NamesCommuteBut(st, upstream, mapping, m, addInput, ignoreInput, exempt)
    ensures RegexSafeBut(st, upstream, mapping, m, addInput, ignoreInput, exempt)
  {
    var adds, ignores := SelectedAdds(st, addInput), SelectedIgnores(st, ignoreInput);
    var after := Normalize(NextIgnored(st, addInput, ignoreInput));
    RulesAfter(st, upstream, mapping, m, addInput, ignoreInput);
    forall u, n | u in st.detected && u !in adds && u !in ignores && u !in exempt
                  && n in ignores && n !in adds && RegexShaped(n)
      ensures !RuleMatches(n, u, m)
    {
      assert n in after;
      assert NameCommutes(st, upstream, mapping, m, addInput, ignoreInput, u);
    }
  }

  /** Regex safety is what it takes for every name that matters to commute. */
  lemma NamesCommuteExactly(st: ChannelState, upstream: seq<string>, mapping: map<string, string>, m: Matcher,
                            addInput: seq<string>, ignoreInput: seq<string>, exempt: set<string>)
    requires Recorded(st, upstream, mapping, m)
    ensures NamesCommuteBut(st, upstream, mapping, m, addInput, ignoreInput, exempt)
            <==> RegexSafeBut(st, upstream, mapping, m, addInput, ignoreInput, exempt)
  {
    if NamesCommuteBut(st, upstream, mapping, m, addInput, ignoreInput, exempt) {
      CommutingNamesSafe(st, upstream, mapping, m, addInput, ignoreInput, exempt);
    } else if RegexSafeBut(st, upstream, mapping, m, addInput, ignoreInput, exempt) {
      forall u | u in Normalize(upstream) && u !in exempt
        ensures NameCommutes(st, upstream, mapping, m, addInput, ignoreInput, u)
      {
        SafeNameCommutes(st, upstream, mapping, m, addInput, ignoreInput, exempt, u);
      }
    }
  }

  /**
    Detecting again after an application, against the same upstream list and the updated local names,
    finds exactly the recorded remaining lists if and only if the selection is regex-safe.
   */
  lemma DetectAfterApply(st: ChannelState, upstream: seq<string>, mapping: map<string, string>, m: Matcher,
                         addInput: seq<string>, ignoreInput: seq<string>, removeInput: seq<string>, now: int)
    requires Recorded(st, upstream, mapping, m)
    ensures var r := Apply(st, addInput, ignoreInput, removeInput, now);
            Detect(NextModels(st, addInput, removeInput), upstream, r.next.ignored, mapping, m)
            == Pending(r.remaining, r.remainingRemove)
            <==> RegexSafe(st, upstream, mapping, m, addInput, ignoreInput)
  {
    var r := Apply(st, addInput, ignoreInput, removeInput, now);
    var local, next, up := GetModels(st.models), NextModels(st, addInput, removeInput), Normalize(upstream);
    RemovesCommute(st, upstream, mapping, m, addInput, ignoreInput, removeInput, now);
    AddsCommute(st, upstream, mapping, m, addInput, ignoreInput, removeInput, now);
    NamesCommuteExactly(st, upstream, mapping, m, addInput, ignoreInput, {});
  }

  lemma UncoveredAfter(st: ChannelState, upstream: seq<string>, mapping: map<string, string>, m: Matcher,
                       addInput: seq<string>, ignoreInput: seq<string>, removeInput: seq<string>, now: int)
    requires Recorded(st, upstream, mapping, m)
    ensures Uncovered(NextModels(st, addInput, removeInput), upstream, mapping)
            == Uncovered(GetModels(st.models), upstream, mapping) - Elems(SelectedAdds(st, addInput))
  {
    var local, next, adds := GetModels(st.models), NextModels(st, addInput, removeInput), SelectedAdds(st, addInput);
    forall u | u in Normalize(upstream)
      ensures u in Normalize(next) <==> u in Normalize(local) || u in adds
    {
      NextCovers(st, upstream, mapping, m, addInput, ignoreInput, removeInput, now, u);
    }
  }

  lemma NextCovers(st: ChannelState, upstream: seq<string>, mapping: map<string, string>, m: Matcher,
                   addInput: seq<string>, ignoreInput: seq<string>, removeInput: seq<string>, now: int, u: string)
    requires Recorded(st, upstream, mapping, m) && u in Normalize(upstream)
    ensures u in Normalize(NextModels(st, addInput, removeInput))
            <==> u in Normalize(GetModels(st.models)) || u in SelectedAdds(st, addInput)
  {
    var r := Apply(st, addInput, ignoreInput, removeInput, now);
    var local, next := GetModels(st.models), NextModels(st, addInput, removeInput);
    NextModelsShape(st, upstream, mapping, m, addInput, ignoreInput, removeInput, now);
    NormalizeNormal(next);
    assert u !in Elems(r.removedNow) by {
      SelectionShape(st, upstream, mapping, m, addInput, ignoreInput, removeInput, now);
      DetectMembers(local, upstream, st.ignored, mapping, m);
      assert u !in Elems(st.removed);
    }
    assert u in Drop(Normalize(local), Elems(r.removedNow)) <==> u in Normalize(local);
  }

  lemma AddsCommute(st: ChannelState, upstream: seq<string>, mapping: map<string, string>, m: Matcher,
                    addInput: seq<string>, ignoreInput: seq<string>, removeInput: seq<string>, now: int)
    requires Recorded(st, upstream, mapping, m)
    ensures var r := Apply(st, addInput, ignoreInput, removeInput, now);
            Detect(NextModels(st, addInput, removeInput), upstream, r.next.ignored, mapping, m).adds == r.remaining
            <==> NamesCommuteBut(st, upstream, mapping, m, addInput, ignoreInput, {})
  {
    var r := Apply(st, addInput, ignoreInput, removeInput, now);
    var local, next := GetModels(st.models), NextModels(st, addInput, removeInput);
    var wanted := set u | u in Uncovered(local, upstream, mapping) && !Ignored(Normalize(st.ignored), u, m);
    var after := set u | u in Uncovered(next, upstream, mapping) && !Ignored(Normalize(r.next.ignored), u, m);
    var gone := Elems(r.added) + Elems(SelectedIgnores(st, ignoreInput));
    assert Detect(next, upstream, r.next.ignored, mapping, m).adds == Keep(Normalize(upstream), after) by {
      DetectShape(next, upstream, r.next.ignored, mapping, m);
    }
    assert st.detected == Keep(Normalize(upstream), wanted) by {
      DetectShape(local, upstream, st.ignored, mapping, m);
    }
    assert r.remaining == Drop(st.detected, gone) by {
      SelectionShape(st, upstream, mapping, m, addInput, ignoreInput, removeInput, now);
    }
    DropKept(Normalize(upstream), wanted, gone, after);
    UncoveredAfter(st, upstream, mapping, m, addInput, ignoreInput, removeInput, now);
    forall u | u in Normalize(upstream)
      ensures (u in after <==> u in wanted && u !in gone)
              <==> NameCommutes(st, upstream, mapping, m, addInput, ignoreInput, u)
    {
      assert u in st.detected <==> u in wanted;
    }
  }

  /** No selected name looks like a rule: then detection and application commute. */
  lemma PlainNamesCommute(st: ChannelState, upstream: seq<string>, mapping: map<string, string>, m: Matcher,
                          addInput: seq<string>, ignoreInput: seq<string>, removeInput: seq<string>, now: int)
    requires Recorded(st, upstream, mapping, m)
    requires PlainSelection(st, addInput, ignoreInput)
    ensures var r := Apply(st, addInput, ignoreInput, removeInput, now);
            Detect(NextModels(st, addInput, removeInput), upstream, r.next.ignored, mapping, m)
            == Pending(r.remaining, r.remainingRemove)
  {
    assert RegexSafe(st, upstream, mapping, m, addInput, ignoreInput);
    DetectAfterApply(st, upstream, mapping, m, addInput, ignoreInput, removeInput, now);
  }

  ghost predicate PlainSelection(st: ChannelState, addInput: seq<string>, ignoreInput: seq<string>) {
    forall u :: u in SelectedAdds(st, addInput) || u in SelectedIgnores(st, ignoreInput) ==> !RegexShaped(u)
  }

  /** Accepting everything that is pending leaves nothing pending. */
  lemma ApplyAllSettles(st: ChannelState, upstream: seq<string>, mapping: map<string, string>, m: Matcher, now: int)
    requires Recorded(st, upstream, mapping, m)
    requires forall u :: u in st.detected ==> !RegexShaped(u)
    ensures var r := Apply(st, st.detected, [], st.removed, now);
            && r.remaining == [] && r.remainingRemove == []
            && Detect(NextModels(st, st.detected, st.removed), upstream, r.next.ignored, mapping, m) == Pending([], [])
  {
    var r := Apply(st, st.detected, [], st.removed, now);
    var local := GetModels(st.models);
    RulesAfter(st, upstream, mapping, m, st.detected, []);
    PlainNamesCommute(st, upstream, mapping, m, st.detected, [], st.removed, now);
    DetectMembers(local, upstream, st.ignored, mapping, m);
    SelectionShape(st, upstream, mapping, m, st.detected, [], st.removed, now);
    NormalizeNormal(st.detected);
    NormalizeNormal(st.removed);
    KeepAll(st.detected, Elems(st.detected));
    KeepAll(st.removed, Elems(st.removed));
    NormalizeNormal(r.added);
    KeepAll(st.removed, Elems(st.removed) - Elems(r.added));
    KeepSame(st.detected, Elems(st.detected) - (Elems(r.added) + Elems(SelectedIgnores(st, []))), {});
    KeepNothing(st.detected);
    KeepSame(st.removed, Elems(st.removed) - Elems(r.removedNow), {});
    KeepNothing(st.removed);
  }

  // ---------------------------------------------------------------- through the comma-joined column

  predicate CommaFree(names: seq<string>) {
    forall x :: x in names ==> ',' !in x
  }

  lemma LocalNamesCommaFree(models: string)
    ensures CommaFree(Normalize(GetModels(models)))
  {
    SplitFree(TrimChar(models, ','), ',');
    forall x | x in Normalize(GetModels(models)) ensures ',' !in x {
      NormalizeMembers(GetModels(models), x);
      var y :| y in GetModels(models) && TrimSpace(y) == x;
      TrimSpaceTrims(y);
    }
  }

  /** A normal list of comma-free names is read back from the column it was joined into. */
  lemma StoredNames(names: seq<string>)
    requires Normal(names) && CommaFree(names)
    ensures GetModels(Join(names, ',')) == names
  {
    if names != [] {
      SplitTrimJoin(names, ',');
    }
  }

  /** Detection sees the local list only up to normalisation. */
  lemma DetectNormalizes(a: seq<string>, b: seq<string>, upstream: seq<string>, ignored: seq<string>,
                         mapping: map<string, string>, m: Matcher)
    requires Normalize(a) == Normalize(b)
    ensures Detect(a, upstream, ignored, mapping, m) == Detect(b, upstream, ignored, mapping, m)
  {
    assert Uncovered(a, upstream, mapping) == Uncovered(b, upstream, mapping);
  }

  /** The column an application leaves, and the names read back from it. */
  function NextColumn(st: ChannelState, addInput: seq<string>, removeInput: seq<string>): string {
    var next := NextModels(st, addInput, removeInput);
    if Normalize(GetModels(st.models)) != next then Join(next, ',') else st.models
  }

  function ReadBack(st: ChannelState, addInput: seq<string>, removeInput: seq<string>): seq<string> {
    Normalize(GetModels(NextColumn(st, addInput, removeInput)))
  }

  /** Names that exist only because a name with a comma was split. */
  function Fragments(st: ChannelState, addInput: seq<string>, removeInput: seq<string>): set<string> {
    Elems(ReadBack(st, addInput, removeInput)) - Elems(NextModels(st, addInput, removeInput))
  }

  /** Read back, a joined list keeps its comma-free front in place and every comma-free name. */
  lemma ColumnReadBack(kept: seq<string>, added: seq<string>)
    requires Normal(kept + added) && Normal(kept) && CommaFree(kept)
    ensures var names := Normalize(GetModels(Join(kept + added, ',')));
            kept <= names && forall x :: x in kept + added && ',' !in x ==> x in names
  {
    var all := kept + added;
    if all != [] {
      var pieces := SplitAll(all, ',');
      JoinNonempty(all, ',');
      NormalizeTrimmedColumn(Join(all, ','), ',');
      SplitJoinAll(all, ',');
      SplitAllAppend(kept, added, ',');
      SplitAllWhole(kept, ',');
      NormalizePrefix(kept, SplitAll(added, ','));
      forall x | x in all && ',' !in x ensures x in Normalize(pieces) {
        SplitAllHas(all, ',', x);
        TrimSpaceTrims(x);
        NormalizeMembers(pieces, x);
      }
    }
  }

  lemma ReadBackShape(st: ChannelState, upstream: seq<string>, mapping: map<string, string>, m: Matcher,
                      addInput: seq<string>, removeInput: seq<string>)
    requires Recorded(st, upstream, mapping, m)
    ensures var kept := Drop(Normalize(GetModels(st.models)), Elems(SelectedRemoves(st, addInput, removeInput)));
            var next, back := NextModels(st, addInput, removeInput), ReadBack(st, addInput, removeInput);
            && next == kept + SelectedAdds(st, addInput) && Normal(next) && Normal(back)
            && CommaFree(back) && CommaFree(kept) && kept <= back
            && forall x :: x in next && ',' !in x ==> x in back
  {
    var origin, next := Normalize(GetModels(st.models)), NextModels(st, addInput, removeInput);
    var kept, added := Drop(origin, Elems(SelectedRemoves(st, addInput, removeInput))), SelectedAdds(st, addInput);
    NextModelsShape(st, upstream, mapping, m, addInput, [], removeInput, 0);
    LocalNamesCommaFree(st.models);
    LocalNamesCommaFree(NextColumn(st, addInput, removeInput));
    KeepNormal(origin, Elems(origin) - Elems(SelectedRemoves(st, addInput, removeInput)));
    if origin != next {
      ColumnReadBack(kept, added);
    }
  }

  /** Whether detection on the column treats one upstream name as recorded. */
  predicate NameReadBack(st: ChannelState, mapping: map<string, string>, m: Matcher, addInput: seq<string>,
                         ignoreInput: seq<string>, removeInput: seq<string>, u: string) {
    (u !in ReadBack(st, addInput, removeInput) && u !in mapping.Values
     && !Ignored(Normalize(NextIgnored(st, addInput, ignoreInput)), u, m))
    <==> (u in st.detected && u !in SelectedAdds(st, addInput) && u !in SelectedIgnores(st, ignoreInput))
  }

  lemma AddsReadBack(st: ChannelState, upstream: seq<string>, mapping: map<string, string>, m: Matcher,
                     addInput: seq<string>, ignoreInput: seq<string>, removeInput: seq<string>, now: int)
    requires Recorded(st, upstream, mapping, m)
    ensures var r := Apply(st, addInput, ignoreInput, removeInput, now);
            Detect(GetModels(r.next.models), upstream, r.next.ignored, mapping, m).adds == r.remaining
            <==> forall u :: u in Normalize(upstream) ==>
                   NameReadBack(st, mapping, m, addInput, ignoreInput, removeInput, u)
  {
    var r := Apply(st, addInput, ignoreInput, removeInput, now);
    var up, local, column := Normalize(upstream), GetModels(st.models), GetModels(r.next.models);
    var wanted := set u | u in Uncovered(local, upstream, mapping) && !Ignored(Normalize(st.ignored), u, m);
    var after := set u | u in Uncovered(column, upstream, mapping) && !Ignored(Normalize(r.next.ignored), u, m);
    var gone := Elems(r.added) + Elems(SelectedIgnores(st, ignoreInput));
    assert Detect(column, upstream, r.next.ignored, mapping, m).adds == Keep(up, after) by {
      DetectShape(column, upstream, r.next.ignored, mapping, m);
    }
    assert st.detected == Keep(up, wanted) by {
      DetectShape(local, upstream, st.ignored, mapping, m);
    }
    assert r.remaining == Drop(st.detected, gone) by {
      SelectionShape(st, upstream, mapping, m, addInput, ignoreInput, removeInput, now);
    }
    DropKept(up, wanted, gone, after);
    assert r.next.models == NextColumn(st, addInput, removeInput);
    forall u | u in up
      ensures (u in after <==> u in wanted && u !in gone)
              <==> NameReadBack(st, mapping, m, addInput, ignoreInput, removeInput, u)
    {
      assert u in st.detected <==> u in wanted;
    }
  }

  /** A name in the column must not be pending; an accepted one that is not must be ignored; others must commute. */
  ghost predicate NameKept(st: ChannelState, upstream: seq<string>, mapping: map<string, string>, m: Matcher,
                     addInput: seq<string>, ignoreInput: seq<string>, removeInput: seq<string>, u: string) {
    if u in NextModels(st, addInput, removeInput) then
      u in ReadBack(st, addInput, removeInput) || Ignored(Normalize(NextIgnored(st, addInput, ignoreInput)), u, m)
    else if u in ReadBack(st, addInput, removeInput) then
      u !in st.detected || u in SelectedIgnores(st, ignoreInput)
    else
      NameCommutes(st, upstream, mapping, m, addInput, ignoreInput, u)
  }

  lemma NameFacts(st: ChannelState, upstream: seq<string>, mapping: map<string, string>, m: Matcher,
                  addInput: seq<string>, ignoreInput: seq<string>, removeInput: seq<string>, u: string)
    requires Recorded(st, upstream, mapping, m) && u in Normalize(upstream)
    ensures u in NextModels(st, addInput, removeInput)
            <==> u in Normalize(GetModels(st.models)) || u in SelectedAdds(st, addInput)
    ensures u in Normalize(GetModels(st.models)) ==> u in ReadBack(st, addInput, removeInput)
    ensures u in SelectedAdds(st, addInput) ==> u in st.detected
    ensures u in st.detected
            <==> u !in Normalize(GetModels(st.models)) && u !in mapping.Values && !Ignored(Normalize(st.ignored), u, m)
  {
    NextCovers(st, upstream, mapping, m, addInput, ignoreInput, removeInput, 0, u);
    assert u in Normalize(GetModels(st.models)) ==> u in ReadBack(st, addInput, removeInput) by {
      ReadBackShape(st, upstream, mapping, m, addInput, removeInput);
      LocalNamesCommaFree(st.models);
      NormalizeNormal(NextModels(st, addInput, removeInput));
    }
    assert u in NextModels(st, addInput, removeInput) <==> u in Normalize(NextModels(st, addInput, removeInput)) by {
      NextModelsShape(st, upstream, mapping, m, addInput, ignoreInput, removeInput, 0);
      NormalizeNormal(NextModels(st, addInput, removeInput));
    }
    RulesAfter(st, upstream, mapping, m, addInput, ignoreInput);
  }

  /** The same with the memberships as plain truth values. */
  lemma NameLogic(local: bool, added: bool, ignored: bool, detected: bool, back: bool, redirected: bool, hidden: bool)
    requires local ==> back
    requires added ==> detected
    requires detected ==> !local && !redirected
    ensures var next, pending := local || added, detected && !added && !ignored;
            ((!back && !redirected && !hidden) <==> pending)
            <==> if next then back || hidden else if back then !detected || ignored
                 else ((!local && !redirected && !added && !hidden) <==> pending)
    ensures local || added ==> ((!local && !redirected && !added && !hidden) <==> (detected && !added && !ignored))
  {
  }

  lemma NameReadBackIs(st: ChannelState, upstream: seq<string>, mapping: map<string, string>, m: Matcher,
                       addInput: seq<string>, ignoreInput: seq<string>, removeInput: seq<string>, u: string)
    requires Recorded(st, upstream, mapping, m) && u in Normalize(upstream)
    ensures NameReadBack(st, mapping, m, addInput, ignoreInput, removeInput, u)
            <==> NameKept(st, upstream, mapping, m, addInput, ignoreInput, removeInput, u)
    ensures u in NextModels(st, addInput, removeInput) ==>
              NameCommutes(st, upstream, mapping, m, addInput, ignoreInput, u)
  {
    NameFacts(st, upstream, mapping, m, addInput, ignoreInput, removeInput, u);
    NameLogic(u in Normalize(GetModels(st.models)), u in SelectedAdds(st, addInput),
              u in SelectedIgnores(st, ignoreInput), u in st.detected,
              u in ReadBack(st, addInput, removeInput), u in mapping.Values,
              Ignored(Normalize(NextIgnored(st, addInput, ignoreInput)), u, m));
  }

  lemma RemovesReadBack(st: ChannelState, upstream: seq<string>, mapping: map<string, string>, m: Matcher,
                        addInput: seq<string>, ignoreInput: seq<string>, removeInput: seq<string>, now: int)
    requires Recorded(st, upstream, mapping, m)
    ensures var r := Apply(st, addInput, ignoreInput, removeInput, now);
            Detect(GetModels(r.next.models), upstream, r.next.ignored, mapping, m).removes == r.remainingRemove
            <==> RemovesSafe(st, upstream, mapping, addInput, removeInput)
  {
    var next, back := NextModels(st, addInput, removeInput), ReadBack(st, addInput, removeInput);
    var kept := Drop(Normalize(GetModels(st.models)), Elems(SelectedRemoves(st, addInput, removeInput)));
    RemovesKept(st, upstream, mapping, m, addInput, ignoreInput, removeInput, now);
    ReadBackShape(st, upstream, mapping, m, addInput, removeInput);
    RemovesOfTail(kept, SelectedAdds(st, addInput), next, back, Normalize(upstream), mapping.Keys);
  }

  function Stale(names: seq<string>, up: seq<string>, sources: set<string>): set<string> {
    set l | l in names && l !in sources && l !in up
  }

  lemma RemovesKept(st: ChannelState, upstream: seq<string>, mapping: map<string, string>, m: Matcher,
                    addInput: seq<string>, ignoreInput: seq<string>, removeInput: seq<string>, now: int)
    requires Recorded(st, upstream, mapping, m)
    ensures var r := Apply(st, addInput, ignoreInput, removeInput, now);
            var up, next, back := Normalize(upstream), NextModels(st, addInput, removeInput),
                                  ReadBack(st, addInput, removeInput);
            && r.remainingRemove == Keep(next, Stale(next, up, mapping.Keys))
            && Detect(GetModels(r.next.models), upstream, r.next.ignored, mapping, m).removes
               == Keep(back, Stale(back, up, mapping.Keys))
            && Elems(SelectedAdds(st, addInput)) <= Elems(up)
  {
    var r := Apply(st, addInput, ignoreInput, removeInput, now);
    var up, next := Normalize(upstream), NextModels(st, addInput, removeInput);
    assert r.remainingRemove == Keep(next, Stale(next, up, mapping.Keys)) by {
      RemovesCommute(st, upstream, mapping, m, addInput, ignoreInput, removeInput, now);
      NextModelsShape(st, upstream, mapping, m, addInput, ignoreInput, removeInput, now);
      NormalizeNormal(next);
      DetectShape(next, upstream, r.next.ignored, mapping, m);
    }
    assert r.next.models == NextColumn(st, addInput, removeInput);
    DetectShape(GetModels(r.next.models), upstream, r.next.ignored, mapping, m);
    assert Elems(r.added) <= Elems(up) by {
      SelectionShape(st, upstream, mapping, m, addInput, ignoreInput, removeInput, now);
      DetectMembers(GetModels(st.models), upstream, st.ignored, mapping, m);
    }
  }

  lemma FrontAndTail(kept: seq<string>, extra: seq<string>)
    requires Normal(kept + extra)
    ensures forall x :: x in extra ==> x !in kept
  {
    forall x | x in extra ensures x !in kept {
      var j :| 0 <= j < |extra| && extra[j] == x;
      forall i | 0 <= i < |kept| ensures kept[i] != x {
        assert (kept + extra)[i] != (kept + extra)[|kept| + j];
      }
    }
  }

  /** With a common front, what is stale afterwards is the same exactly when nothing of the tail is stale. */
  lemma RemovesOfTail(kept: seq<string>, added: seq<string>, next: seq<string>, back: seq<string>, up: seq<string>,
                      sources: set<string>)
    requires next == kept + added && kept <= back && Normal(back) && Elems(added) <= Elems(up)
    ensures Keep(back, Stale(back, up, sources)) == Keep(next, Stale(next, up, sources))
            <==> forall x :: x in Elems(back) - Elems(next) ==> x in up || x in sources
  {
    var extra, stale, staleBack := back[|kept|..], Stale(next, up, sources), Stale(back, up, sources);
    assert back == kept + extra;
    KeepAppend(kept, extra, staleBack);
    KeepAppend(kept, added, stale);
    KeepSame(kept, staleBack, stale);
    assert Keep(added, stale) == [] by {
      forall x | x in added ensures x !in stale {
        assert x in Elems(added);
      }
      KeepSame(added, stale, {});
      KeepNothing(added);
    }
    var tail := Keep(extra, staleBack);
    FrontAndTail(kept, extra);
    if tail != [] {
      var x := tail[0];
      assert x in tail;
      assert x in extra && x in staleBack;
      assert x !in kept && x !in added by {
        assert x in added ==> x in Elems(added);
      }
    } else {
      forall x | x in Elems(back) - Elems(next) ensures x in up || x in sources {
        assert x in extra && x !in tail;
      }
    }
  }

  /**
    What it takes for the recorded lists to survive storage: regex safety beyond the fragments, an ignore
    rule for every accepted name with a comma, and no fragment that is pending or would be offered for removal.
   */
  predicate ColumnSafe(st: ChannelState, upstream: seq<string>, mapping: map<string, string>, m: Matcher,
                       addInput: seq<string>, ignoreInput: seq<string>, removeInput: seq<string>) {
    var fragments := Fragments(st, addInput, removeInput);
    && RegexSafeBut(st, upstream, mapping, m, addInput, ignoreInput, fragments)
    && (forall a :: a in SelectedAdds(st, addInput) && ',' in a ==>
          Ignored(Normalize(NextIgnored(st, addInput, ignoreInput)), a, m))
    && (forall x :: x in fragments ==>
          && (x in st.detected ==> x in SelectedIgnores(st, ignoreInput))
          && (x in Normalize(upstream) || x in mapping.Keys))
  }

  /** Through storage: the recorded lists are again what detection finds if and only if the column is safe. */
  lemma RecordedAfterApply(st: ChannelState, upstream: seq<string>, mapping: map<string, string>, m: Matcher,
                           addInput: seq<string>, ignoreInput: seq<string>, removeInput: seq<string>, now: int)
    requires Recorded(st, upstream, mapping, m)
    ensures Recorded(Apply(st, addInput, ignoreInput, removeInput, now).next, upstream, mapping, m)
            <==> ColumnSafe(st, upstream, mapping, m, addInput, ignoreInput, removeInput)
  {
    RecordedMeans(st, upstream, mapping, m, addInput, ignoreInput, removeInput, now);
    ColumnSafeMeans(st, upstream, mapping, m, addInput, ignoreInput, removeInput);
  }

  ghost predicate RemovesSafe(st: ChannelState, upstream: seq<string>, mapping: map<string, string>,
                              addInput: seq<string>, removeInput: seq<string>) {
    forall x :: x in Fragments(st, addInput, removeInput) ==> x in Normalize(upstream) || x in mapping.Keys
  }

  lemma RecordedMeans(st: ChannelState, upstream: seq<string>, mapping: map<string, string>, m: Matcher,
                      addInput: seq<string>, ignoreInput: seq<string>, removeInput: seq<string>, now: int)
    requires Recorded(st, upstream, mapping, m)
    ensures Recorded(Apply(st, addInput, ignoreInput, removeInput, now).next, upstream, mapping, m)
            <==> && AddsSafe(st, upstream, mapping, m, addInput, ignoreInput, removeInput)
                 && RemovesSafe(st, upstream, mapping, addInput, removeInput)
  {
    AddsReadBack(st, upstream, mapping, m, addInput, ignoreInput, removeInput, now);
    NamesReadBackExactly(st, upstream, mapping, m, addInput, ignoreInput, removeInput);
    RemovesReadBack(st, upstream, mapping, m, addInput, ignoreInput, removeInput, now);
  }

  lemma ColumnSafeMeans(st: ChannelState, upstream: seq<string>, mapping: map<string, string>, m: Matcher,
                        addInput: seq<string>, ignoreInput: seq<string>, removeInput: seq<string>)
    requires Recorded(st, upstream, mapping, m)
    ensures ColumnSafe(st, upstream, mapping, m, addInput, ignoreInput, removeInput)
            <==> && AddsSafe(st, upstream, mapping, m, addInput, ignoreInput, removeInput)
                 && RemovesSafe(st, upstream, mapping, addInput, removeInput)
  {
    NamesCommuteExactly(st, upstream, mapping, m, addInput, ignoreInput, Fragments(st, addInput, removeInput));
  }

  /** What the fragments and the accepted names with a comma must meet for the adds to come out as recorded. */
  ghost predicate AddsSafe(st: ChannelState, upstream: seq<string>, mapping: map<string, string>, m: Matcher,
                           addInput: seq<string>, ignoreInput: seq<string>, removeInput: seq<string>) {
    var fragments := Fragments(st, addInput, removeInput);
    && NamesCommuteBut(st, upstream, mapping, m, addInput, ignoreInput, fragments)
    && (forall a :: a in SelectedAdds(st, addInput) && ',' in a ==>
          Ignored(Normalize(NextIgnored(st, addInput, ignoreInput)), a, m))
    && (forall x :: x in fragments && x in st.detected ==> x in SelectedIgnores(st, ignoreInput))
  }

  lemma SafeNameKept(st: ChannelState, upstream: seq<string>, mapping: map<string, string>, m: Matcher,
                     addInput: seq<string>, ignoreInput: seq<string>, removeInput: seq<string>, u: string)
    requires Recorded(st, upstream, mapping, m) && u in Normalize(upstream)
    ensures AddsSafe(st, upstream, mapping, m, addInput, ignoreInput, removeInput) ==>
              NameKept(st, upstream, mapping, m, addInput, ignoreInput, removeInput, u)
  {
    assert u in NextModels(st, addInput, removeInput) && u !in ReadBack(st, addInput, removeInput) ==>
             u in SelectedAdds(st, addInput) && ',' in u by {
      NameFacts(st, upstream, mapping, m, addInput, ignoreInput, removeInput, u);
      ReadBackShape(st, upstream, mapping, m, addInput, removeInput);
    }
  }

  lemma KeptNamesSafe(st: ChannelState, upstream: seq<string>, mapping: map<string, string>, m: Matcher,
                      addInput: seq<string>, ignoreInput: seq<string>, removeInput: seq<string>)
    requires Recorded(st, upstream, mapping, m)
    requires forall u :: u in Normalize(upstream) ==>
               NameKept(st, upstream, mapping, m, addInput, ignoreInput, removeInput, u)
    ensures AddsSafe(st, upstream, mapping, m, addInput, ignoreInput, removeInput)
  {
    var next, back := NextModels(st, addInput, removeInput), ReadBack(st, addInput, removeInput);
    var fragments := Fragments(st, addInput, removeInput);
    forall u | u in Normalize(upstream) && u !in fragments
      ensures NameCommutes(st, upstream, mapping, m, addInput, ignoreInput, u)
    {
      NameReadBackIs(st, upstream, mapping, m, addInput, ignoreInput, removeInput, u);
      assert NameKept(st, upstream, mapping, m, addInput, ignoreInput, removeInput, u);
    }
    forall u | u in st.detected ensures u in Normalize(upstream) {
      DetectMembers(GetModels(st.models), upstream, st.ignored, mapping, m);
      assert u in Elems(st.detected);
    }
    forall a | a in SelectedAdds(st, addInput) && ',' in a
      ensures Ignored(Normalize(NextIgnored(st, addInput, ignoreInput)), a, m)
    {
      assert a in next && a !in back && a in st.detected by {
        ReadBackShape(st, upstream, mapping, m, addInput, removeInput);
        RulesAfter(st, upstream, mapping, m, addInput, ignoreInput);
      }
      assert NameKept(st, upstream, mapping, m, addInput, ignoreInput, removeInput, a);
    }
    forall x | x in fragments && x in st.detected ensures x in SelectedIgnores(st, ignoreInput) {
      assert NameKept(st, upstream, mapping, m, addInput, ignoreInput, removeInput, x);
    }
  }

  lemma NamesReadBackExactly(st: ChannelState, upstream: seq<string>, mapping: map<string, string>, m: Matcher,
                             addInput: seq<string>, ignoreInput: seq<string>, removeInput: seq<string>)
    requires Recorded(st, upstream, mapping, m)
    ensures (forall u :: u in Normalize(upstream) ==>
               NameReadBack(st, mapping, m, addInput, ignoreInput, removeInput, u))
            <==> AddsSafe(st, upstream, mapping, m, addInput, ignoreInput, removeInput)
  {
    forall u | u in Normalize(upstream)
      ensures NameReadBack(st, mapping, m, addInput, ignoreInput, removeInput, u)
              <==> NameKept(st, upstream, mapping, m, addInput, ignoreInput, removeInput, u)
    {
      NameReadBackIs(st, upstream, mapping, m, addInput, ignoreInput, removeInput, u);
    }
    if AddsSafe(st, upstream, mapping, m, addInput, ignoreInput, removeInput) {
      forall u | u in Normalize(upstream)
        ensures NameKept(st, upstream, mapping, m, addInput, ignoreInput, removeInput, u)
      {
        SafeNameKept(st, upstream, mapping, m, addInput, ignoreInput, removeInput, u);
      }
    } else if forall u :: u in Normalize(upstream) ==>
                NameReadBack(st, mapping, m, addInput, ignoreInput, removeInput, u) {
      KeptNamesSafe(st, upstream, mapping, m, addInput, ignoreInput, removeInput);
    }
  }

  /** With no comma among the accepted names there are no fragments, and regex safety alone decides. */
  lemma RecordedWhenCommaFree(st: ChannelState, upstream: seq<string>, mapping: map<string, string>, m: Matcher,
                              addInput: seq<string>, ignoreInput: seq<string>, removeInput: seq<string>, now: int)
    requires Recorded(st, upstream, mapping, m) && CommaFree(SelectedAdds(st, addInput))
    ensures Recorded(Apply(st, addInput, ignoreInput, removeInput, now).next, upstream, mapping, m)
            <==> RegexSafe(st, upstream, mapping, m, addInput, ignoreInput)
  {
    StoredAfterApply(st, upstream, mapping, m, addInput, ignoreInput, removeInput, now);
    DetectAfterApply(st, upstream, mapping, m, addInput, ignoreInput, removeInput, now);
  }

  /** Detection on the stored column is detection on the list that was joined into it. */
  lemma StoredAfterApply(st: ChannelState, upstream: seq<string>, mapping: map<string, string>, m: Matcher,
                         addInput: seq<string>, ignoreInput: seq<string>, removeInput: seq<string>, now: int)
    requires Recorded(st, upstream, mapping, m) && CommaFree(SelectedAdds(st, addInput))
    ensures var r := Apply(st, addInput, ignoreInput, removeInput, now);
            Detect(GetModels(r.next.models), upstream, r.next.ignored, mapping, m)
            == Detect(NextModels(st, addInput, removeInput), upstream, r.next.ignored, mapping, m)
  {
    var r := Apply(st, addInput, ignoreInput, removeInput, now);
    var origin, next := Normalize(GetModels(st.models)), NextModels(st, addInput, removeInput);
    LocalNamesCommaFree(st.models);
    NextModelsShape(st, upstream, mapping, m, addInput, ignoreInput, removeInput, now);
    forall x | x in next ensures ',' !in x {
      assert x in Drop(origin, Elems(r.removedNow)) || x in r.added;
    }
    StoredNames(next);
    NormalizeNormal(next);
    DetectNormalizes(GetModels(r.next.models), next, upstream, r.next.ignored, mapping, m);
  }

  /** An accepted name with a comma is not among the stored names and is offered again unless a rule hides it. */
  lemma CommaNameReappears(st: ChannelState, upstream: seq<string>, mapping: map<string, string>, m: Matcher,
                           addInput: seq<string>, ignoreInput: seq<string>, removeInput: seq<string>, now: int,
                           a: string)
    requires Recorded(st, upstream, mapping, m)
    requires a in SelectedAdds(st, addInput) && ',' in a
    ensures var r := Apply(st, addInput, ignoreInput, removeInput, now);
            && a !in r.remaining
            && (a in Detect(GetModels(r.next.models), upstream, r.next.ignored, mapping, m).adds
                <==> !Ignored(Normalize(r.next.ignored), a, m))
  {
    var r := Apply(st, addInput, ignoreInput, removeInput, now);
    LocalNamesCommaFree(r.next.models);
    RemainingMember(st, upstream, mapping, m, addInput, ignoreInput, removeInput, now, a);
    RulesAfter(st, upstream, mapping, m, addInput, ignoreInput);
    DetectMembers(GetModels(r.next.models), upstream, r.next.ignored, mapping, m);
  }

  /** The shortest case: the only upstream name has a comma, is accepted, and is pending again. */
  lemma AcceptingACommaName(a: string, up: seq<string>, m: Matcher)
    requires a != "" && Trimmed(a) && ',' in a && up == [a]
    ensures var st := ChannelState("", [], up, [], 0);
            var r := Apply(st, up, [], [], 1);
            && Recorded(st, up, map[], m)
            && r.remaining == []
            && a in Detect(GetModels(r.next.models), up, r.next.ignored, map[], m).adds
  {
    var st := ChannelState("", [], up, [], 0);
    NothingLocal(up, m);
    SelectAll(st, up);
    NothingIgnored(st, up, m, 1);
    CommaNameReappears(st, up, map[], m, up, [], [], 1, a);
  }

  /** Accepting everything where no rule is set and none is added: nothing remains, and still no rule is set. */
  lemma NothingIgnored(st: ChannelState, up: seq<string>, m: Matcher, now: int)
    requires Recorded(st, up, map[], m) && st.ignored == [] && SelectedAdds(st, up) == st.detected
    ensures var r := Apply(st, up, [], [], now);
            r.remaining == [] && Normalize(r.next.ignored) == []
  {
    var r := Apply(st, up, [], [], now);
    assert SelectedIgnores(st, []) == [];
    SelectionShape(st, up, map[], m, up, [], [], now);
    KeepNothing(st.detected);
    KeepSame(st.detected, Elems(st.detected) - (Elems(r.added) + Elems([])), {});
    assert Elems(Normalize(r.next.ignored)) == {};
    EmptyList(Normalize(r.next.ignored));
  }

  lemma EmptyList(names: seq<string>)
    ensures names == [] <==> Elems(names) == {}
  {
    assert names == [] || names[0] in Elems(names);
  }

  lemma SelectAll(st: ChannelState, up: seq<string>)
    requires Normal(up) && st.detected == up
    ensures SelectedAdds(st, up) == up
  {
    NormalizeNormal(up);
    KeepAll(up, Elems(up));
  }

  datatype Request = Request(addInput: seq<string>, ignoreInput: seq<string>, removeInput: seq<string>, now: int)

  function ApplyRun(st: ChannelState, requests: seq<Request>): ChannelState
    decreases requests
  {
    if requests == [] then st
    else
      var q := requests[0];
      ApplyRun(Apply(st, q.addInput, q.ignoreInput, q.removeInput, q.now).next, requests[1..])
  }

  lemma PlainStaysRecorded(st: ChannelState, upstream: seq<string>, mapping: map<string, string>, m: Matcher,
                           addInput: seq<string>, ignoreInput: seq<string>, removeInput: seq<string>, now: int)
    requires Recorded(st, upstream, mapping, m)
    requires forall u :: u in Normalize(upstream) ==> !RegexShaped(u) && ',' !in u
    ensures Recorded(Apply(st, addInput, ignoreInput, removeInput, now).next, upstream, mapping, m)
  {
    RulesAfter(st, upstream, mapping, m, addInput, ignoreInput);
    PlainNamesCommute(st, upstream, mapping, m, addInput, ignoreInput, removeInput, now);
    StoredAfterApply(st, upstream, mapping, m, addInput, ignoreInput, removeInput, now);
  }

  /** While the upstream names are plain, every run of applications keeps the recorded lists exact. */
  lemma {:induction false} ApplyRunStaysRecorded(st: ChannelState, upstream: seq<string>, mapping: map<string, string>,
                                                 m: Matcher, requests: seq<Request>)
    requires Recorded(st, upstream, mapping, m)
    requires forall u :: u in Normalize(upstream) ==> !RegexShaped(u) && ',' !in u
    ensures Recorded(ApplyRun(st, requests), upstream, mapping, m)
    decreases requests
  {
    if requests != [] {
      var q := requests[0];
      PlainStaysRecorded(st, upstream, mapping, m, q.addInput, q.ignoreInput, q.removeInput, q.now);
      ApplyRunStaysRecorded(Apply(st, q.addInput, q.ignoreInput, q.removeInput, q.now).next, upstream, mapping, m,
                            requests[1..]);
    }
  }

  /** A check records what the next detection finds; with automatic adding, unless a detected name has a comma. */
  lemma RecordedAfterCheck(st: ChannelState, upstream: seq<string>, mapping: map<string, string>, m: Matcher,
                           autoSync: bool, now: int)
    ensures var p := Detect(GetModels(st.models), upstream, st.ignored, mapping, m);
            Recorded(Checked(st, p, autoSync, now), upstream, mapping, m) <==> !autoSync || CommaFree(p.adds)
  {
    var p := Detect(GetModels(st.models), upstream, st.ignored, mapping, m);
    if autoSync && |p.adds| > 0 {
      var probe := ChannelState(st.models, st.ignored, p.adds, p.removes, now);
      var after := Checked(st, p, autoSync, now);
      AutoAddCounts(GetModels(st.models), upstream, st.ignored, mapping, m);
      DetectMembers(GetModels(st.models), upstream, st.ignored, mapping, m);
      MergeDisjoint(Normalize(GetModels(st.models)), p.adds);
      var merged := Normalize(GetModels(st.models)) + p.adds;
      if CommaFree(p.adds) {
        LocalNamesCommaFree(st.models);
        StoredNames(merged);
        AutoAddSettles(GetModels(st.models), upstream, st.ignored, mapping, m);
      } else {
        var a :| a in p.adds && ',' in a;
        LocalNamesCommaFree(after.models);
        DetectMembers(GetModels(after.models), upstream, st.ignored, mapping, m);
        assert a in Detect(GetModels(after.models), upstream, st.ignored, mapping, m).adds;
      }
    }
  }

  lemma AutoAddSettles(local: seq<string>, upstream: seq<string>, ignored: seq<string>,
                       mapping: map<string, string>, m: Matcher)
    ensures var p := Detect(local, upstream, ignored, mapping, m);
            Detect(Normalize(local) + p.adds, upstream, ignored, mapping, m) == Pending([], p.removes)
  {
    var p := Detect(local, upstream, ignored, mapping, m);
    var origin, up := Normalize(local), Normalize(upstream);
    var merged := origin + p.adds;
    DetectMembers(local, upstream, ignored, mapping, m);
    MergeDisjoint(origin, p.adds);
    NormalizeNormal(merged);
    var stale := set l | l in origin && l !in mapping.Keys && l !in up;
    var staleNext := set l | l in merged && l !in mapping.Keys && l !in up;
    assert p.removes == Keep(origin, stale) by {
      DetectShape(local, upstream, ignored, mapping, m);
    }
    assert Detect(merged, upstream, ignored, mapping, m).removes == Keep(merged, staleNext) by {
      DetectShape(merged, upstream, ignored, mapping, m);
    }
    KeepAppend(origin, p.adds, staleNext);
    KeepSame(origin, staleNext, stale);
    forall x | x in p.adds ensures x !in staleNext {
      assert x in Elems(p.adds);
    }
    KeepSame(p.adds, staleNext, {});
    KeepNothing(p.adds);
    var after := Detect(merged, upstream, ignored, mapping, m).adds;
    assert after == [] || after[0] in after;
    DetectMembers(merged, upstream, ignored, mapping, m);
  }

  /** A name of the rule shape that is ignored can hide a name recorded as remaining. */
  lemma RuleShapedNameHides(st: ChannelState, upstream: seq<string>, mapping: map<string, string>, m: Matcher,
                            addInput: seq<string>, ignoreInput: seq<string>, removeInput: seq<string>, now: int,
                            n: string, u: string)
    requires Recorded(st, upstream, mapping, m)
    requires n in SelectedIgnores(st, ignoreInput) && n !in SelectedAdds(st, addInput) && RegexShaped(n)
    requires u in st.detected && u !in SelectedIgnores(st, ignoreInput) && u !in SelectedAdds(st, addInput)
    requires RuleMatches(n, u, m)
    ensures var r := Apply(st, addInput, ignoreInput, removeInput, now);
            && u in r.remaining
            && u !in Detect(NextModels(st, addInput, removeInput), upstream, r.next.ignored, mapping, m).adds
  {
    var r := Apply(st, addInput, ignoreInput, removeInput, now);
    RemainingMember(st, upstream, mapping, m, addInput, ignoreInput, removeInput, now, u);
    assert Ignored(Normalize(r.next.ignored), u, m) by {
      RulesAfter(st, upstream, mapping, m, addInput, ignoreInput);
    }
    IgnoredNotOffered(NextModels(st, addInput, removeInput), upstream, r.next.ignored, mapping, m, u);
  }

  lemma RemainingMember(st: ChannelState, upstream: seq<string>, mapping: map<string, string>, m: Matcher,
                        addInput: seq<string>, ignoreInput: seq<string>, removeInput: seq<string>, now: int, u: string)
    requires Recorded(st, upstream, mapping, m)
    ensures u in Apply(st, addInput, ignoreInput, removeInput, now).remaining
            <==> u in st.detected && u !in SelectedAdds(st, addInput) && u !in SelectedIgnores(st, ignoreInput)
  {
    SelectionShape(st, upstream, mapping, m, addInput, ignoreInput, removeInput, now);
    assert u in Drop(st.detected, Elems(SelectedAdds(st, addInput)) + Elems(SelectedIgnores(st, ignoreInput)))
           <==> u in st.detected && u !in SelectedAdds(st, addInput) && u !in SelectedIgnores(st, ignoreInput);
  }

  lemma IgnoredNotOffered(local: seq<string>, upstream: seq<string>, ignored: seq<string>,
                          mapping: map<string, string>, m: Matcher, u: string)
    requires Ignored(Normalize(ignored), u, m)
    ensures u !in Detect(local, upstream, ignored, mapping, m).adds
  {
    DetectMembers(local, upstream, ignored, mapping, m);
  }

  /** A concrete case: upstream offers "regex:b" and "b", and the operator ignores the first. */
  lemma IgnoringARuleShapedName(up: seq<string>, m: Matcher)
    requires up == ["regex:b", "b"] && m("b", "b")
    ensures var st := ChannelState("", [], up, [], 0);
            var r := Apply(st, [], up[..1], [], 1);
            && Recorded(st, up, map[], m)
            && "b" in r.remaining
            && "b" !in Detect(NextModels(st, [], []), up, r.next.ignored, map[], m).adds
  {
    var st := ChannelState("", [], up, [], 0);
    NothingLocal(up, m);
    assert up[..1] == [up[0]] && up[1] == "b" && up[0][6..] == "b" && up[0][..6] == REGEX_PREFIX;
    assert RuleMatches(up[0], up[1], m) by {
      TrimSpaceTrims("b");
    }
    SelectFirst(st, up);
    assert SelectedAdds(st, []) == [];
    RuleShapedNameHides(st, up, map[], m, [], up[..1], [], 1, up[0], up[1]);
  }

  lemma NothingLocal(up: seq<string>, m: Matcher)
    requires Normal(up)
    ensures Recorded(ChannelState("", [], up, [], 0), up, map[], m)
  {
    FreshChannel([], up, [], map[], m);
    assert GetModels("") == [];
  }

  lemma FreshChannel(local: seq<string>, up: seq<string>, rules: seq<string>, mapping: map<string, string>, m: Matcher)
    requires Normal(up) && local == [] && rules == [] && mapping == map[]
    ensures Detect(local, up, rules, mapping, m) == Pending(up, [])
  {
    NormalizeNormal(up);
    assert Normalize(local) == [] && Normalize(rules) == [];
    DetectShape(local, up, rules, mapping, m);
    KeepAll(up, set u | u in Uncovered(local, up, mapping) && !Ignored(Normalize(rules), u, m));
  }

  lemma SelectFirst(st: ChannelState, up: seq<string>)
    requires Normal(up) && up != [] && st.detected == up
    ensures SelectedIgnores(st, up[..1]) == up[..1]
  {
    NormalizeNormal(up);
    NormalizeNormal(up[..1]);
    KeepAll(up[..1], Elems(up));
  }

  // ---------------------------------------------------------------- detection written out

  /** The rule that ignore lists name by `rule` hides the name `u`. */
  predicate Hides(rule: string, u: string, m: Matcher) {
    if "regex:" <= rule then m(TrimSpace(rule[6..]), u) else rule == u
  }

  /**
    What detection offers, name by name: an upstream name that is neither local nor a redirect target nor
    hidden by an ignore rule, and a local name that is neither upstream nor redirected.
   */
  lemma DetectOffers(local: seq<string>, upstream: seq<string>, ignored: seq<string>, mapping: map<string, string>,
                     m: Matcher, x: string)
    ensures var p := Detect(local, upstream, ignored, mapping, m);
            && (x in p.adds
                <==> && x in Normalize(upstream) && x !in Normalize(local)
                     && (forall source :: source in mapping ==> mapping[source] != x)
                     && (forall rule :: rule in Normalize(ignored) ==> !Hides(rule, x, m)))
            && (x in p.removes <==> x in Normalize(local) && x !in Normalize(upstream) && x !in mapping)
  {
    DetectShape(local, upstream, ignored, mapping, m);
    DetectMembers(local, upstream, ignored, mapping, m);
    forall rule ensures RuleMatches(rule, x, m) <==> Hides(rule, x, m) {
      assert "regex:" <= rule <==> |rule| >= 6 && rule[..6] == "regex:";
    }
    assert x in mapping.Values <==> exists source :: source in mapping && mapping[source] == x;
  }

  lemma NormalizeOne(s: string)
    ensures Normalize([s]) == if TrimSpace(s) == "" then [] else [TrimSpace(s)]
  {
    assert [s][..0] == [];
  }

  lemma KeepOne(u: string, names: set<string>)
    ensures Keep([u], names) == if u in names then [u] else []
  {
    assert [u][..0] == [];
  }

  /** With one upstream name and one rule, all lists but these empty. */
  lemma OneRuleIgnores(local: seq<string>, up: seq<string>, ignored: seq<string>, mapping: map<string, string>,
                       m: Matcher, u: string, rule: string)
    requires local == [] && mapping == map[] && Normalize(up) == [u] && Normalize(ignored) == [rule]
    ensures Detect(local, up, ignored, mapping, m).adds == if Hides(rule, u, m) then [] else [u]
  {
    var wanted := set x | x in Uncovered(local, up, mapping) && !Ignored(Normalize(ignored), x, m);
    assert Normalize(local) == [];
    DetectShape(local, up, ignored, mapping, m);
    DetectOffers(local, up, ignored, mapping, m, u);
    KeepOne(u, wanted);
  }

  /** A `regex:` rule ignores an upstream name exactly when its trimmed body, as the pattern, matches the name. */
  lemma RegexRuleIgnores(u: string, body: string, m: Matcher)
    requires u != "" && Trimmed(u)
    ensures Detect([], [u], ["regex:" + body], map[], m).adds == if m(TrimSpace(body), u) then [] else [u]
  {
    var word := "regex:";
    var rest := TrimSpaceAfter(word, body);
    TrimSpaceTrims(u);
    NormalizeOne(u);
    NormalizeOne(word + body);
    assert (word + rest)[6..] == rest && word <= word + rest;
    OneRuleIgnores([], [u], [word + body], map[], m, u, word + rest);
  }

  /** The sets an application selects, name by name. */
  lemma SelectionTakes(st: ChannelState, addInput: seq<string>, ignoreInput: seq<string>, removeInput: seq<string>,
                       x: string)
    ensures var adds, ignores := SelectedAdds(st, addInput), SelectedIgnores(st, ignoreInput);
            var removes := SelectedRemoves(st, addInput, removeInput);
            && Normal(adds) && Normal(ignores) && Normal(removes) && Elems(adds) !! Elems(removes)
            && (x in adds <==> x in Normalize(addInput) && x in Normalize(st.detected))
            && (x in ignores <==> x in Normalize(ignoreInput) && x in Normalize(st.detected))
            && (x in removes <==> x in Normalize(removeInput) && x in Normalize(st.removed) && x !in adds)
  {
    var picked := Intersect(removeInput, Normalize(st.removed));
    IntersectTakes(addInput, Normalize(st.detected), x);
    IntersectTakes(ignoreInput, Normalize(st.detected), x);
    IntersectTakes(removeInput, Normalize(st.removed), x);
    NormalizeNormal(picked);
    NormalizeNormal(SelectedAdds(st, addInput));
    KeepNormal(picked, Elems(picked) - Elems(SelectedAdds(st, addInput)));
  }

  lemma IntersectTakes(base: seq<string>, allowed: seq<string>, x: string)
    requires Normal(allowed)
    ensures Normal(Intersect(base, allowed))
    ensures x in Intersect(base, allowed) <==> x in Normalize(base) && x in allowed
  {
    NormalizeNormal(allowed);
    KeepNormal(Normalize(base), Elems(allowed));
  }

  /** What an application takes and leaves, name by name. */
  lemma ApplyTakes(st: ChannelState, addInput: seq<string>, ignoreInput: seq<string>, removeInput: seq<string>,
                   now: int, x: string)
    ensures var r := Apply(st, addInput, ignoreInput, removeInput, now);
            var pendingAdd, pendingRemove := x in Normalize(st.detected), x in Normalize(st.removed);
            var added := x in Normalize(addInput) && pendingAdd;
            var ignoredNow := x in Normalize(ignoreInput) && pendingAdd;
            var removedNow := x in Normalize(removeInput) && pendingRemove && !added;
            && (x in r.added <==> added) && (x in r.removedNow <==> removedNow)
            && (x in r.remaining <==> pendingAdd && !added && !ignoredNow)
            && (x in r.remainingRemove <==> pendingRemove && !removedNow)
            && (x in Normalize(r.next.ignored) <==> (x in Normalize(st.ignored) || ignoredNow) && !added)
            && (x in NextModels(st, addInput, removeInput)
                <==> (x in Normalize(GetModels(st.models)) || added) && !removedNow)
  {
    var adds, ignores := SelectedAdds(st, addInput), SelectedIgnores(st, ignoreInput);
    SelectionTakes(st, addInput, ignoreInput, removeInput, x);
    RestTakes(Normalize(st.detected), adds, ignores, x);
    RestTakes(Normalize(st.removed), SelectedRemoves(st, addInput, removeInput), [], x);
    assert SelectedRemoves(st, addInput, removeInput) + [] == SelectedRemoves(st, addInput, removeInput);
    IgnoredMembers(st, addInput, ignoreInput);
    assert x in Normalize(NextIgnored(st, addInput, ignoreInput))
           <==> x in Elems(Normalize(st.ignored)) + Elems(ignores) - Elems(adds);
    NextTakes(Normalize(GetModels(st.models)), adds, SelectedRemoves(st, addInput, removeInput), x);
  }

  lemma RestTakes(base: seq<string>, a: seq<string>, b: seq<string>, x: string)
    requires Normal(base) && Normal(a) && Normal(b)
    ensures x in Subtract(base, a + b) <==> x in base && x !in a && x !in b
  {
    SubtractMembers(base, a, b);
    assert x in Subtract(base, a + b) <==> x in base && x !in Elems(a) + Elems(b);
  }

  lemma NextTakes(origin: seq<string>, adds: seq<string>, removes: seq<string>, x: string)
    requires Normal(origin) && Normal(adds) && Normal(removes) && Elems(adds) !! Elems(removes)
    ensures x in ApplySelected(origin, adds, removes) <==> (x in origin || x in adds) && x !in removes
  {
    var merged, gone := Merge(origin, adds), Subtract(Normalize(removes), Normalize(adds));
    NormalizeNormal(origin);
    NormalizeNormal(adds);
    NormalizeNormal(removes);
    MergeNormal(origin, adds);
    NormalizeNormal(merged);
    KeepAll(removes, Elems(removes) - Elems(adds));
    assert x in merged <==> x in Elems(origin) + Elems(adds);
  }

  /** A check is skipped only unforced, after an earlier one, and before the interval has passed since. */
  lemma TooSoonWrittenOut(st: ChannelState, force: bool, minInterval: int, now: int)
    ensures TooSoon(st, force, minInterval, now) <==> !force && 0 < st.lastCheck && now < st.lastCheck + minInterval
  {
  }
}
