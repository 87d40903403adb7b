/**
  Choosing one price among the providers that list the same model.
 */
module CandidateChoice {
  import opened Numbers
  import opened Text

  /** A priced listing; an absent input price counts as zero. */
  datatype Candidate = Candidate(provider: string, key: string, id: string, canonical: string, input: real)

  /**
    Name handling that stays abstract: the provider a model name is expected from (empty when unknown),
    the normal form of a provider name, and lower-casing.
   */
  datatype Naming = Naming(preferred: string -> string, normalize: string -> string, lower: string -> string)

  /** `modelsDevIdentifierRank` */
  function Rank(n: Naming, c: Candidate, preferred: string): (r: nat)
    ensures r <= 2
  {
    if preferred == "" then 2
    else
      var canonical := n.lower(c.canonical);
      var prefixed := preferred + "/" + canonical;
      var id, key := n.lower(TrimSpace(c.id)), n.lower(TrimSpace(c.key));
      if id == prefixed || key == prefixed then 0
      else if id == canonical || key == canonical then 1
      else 2
  }

  predicate Official(n: Naming, c: Candidate, preferred: string) {
    n.normalize(c.provider) == preferred
  }

  /** `shouldReplaceModelsDevCandidate` */
  predicate ShouldReplace(current: Candidate, next: Candidate) {
    var currentNonZero, nextNonZero := current.input > 0.0, next.input > 0.0;
    if currentNonZero != nextNonZero then nextNonZero
    else if nextNonZero && !NearlyEqual(next.input, current.input) then next.input < current.input
    else if next.provider != current.provider then Less(next.provider, current.provider)
    else if next.key != current.key then Less(next.key, current.key)
    else Less(next.id, current.id)
  }

  predicate ReplacesRanked(n: Naming, preferred: string, selected: Candidate, c: Candidate) {
    var r, s := Rank(n, c, preferred), Rank(n, selected, preferred);
    r < s || (r == s && ShouldReplace(selected, c))
  }

  // ---------------------------------------------------------------- the selection loops

  function PickRanked(n: Naming, preferred: string, cs: seq<Candidate>): Candidate
    requires cs != []
  {
    if |cs| == 1 then cs[0]
    else
      var selected, c := PickRanked(n, preferred, cs[..|cs| - 1]), cs[|cs| - 1];
      if ReplacesRanked(n, preferred, selected, c) then c else selected
  }

  /** The listings a pass collects: the official provider's, or those with a prefixed identifier. */
  datatype Pass = OfficialPass | PrefixedPass

  predicate Collects(pass: Pass, n: Naming, preferred: string, c: Candidate) {
    match pass
    case OfficialPass => Official(n, c, preferred)
    case PrefixedPass => Rank(n, c, preferred) == 0
  }

  /** The candidates that pass a test, in order. */
  function Filter(keep: Candidate -> bool, cs: seq<Candidate>): seq<Candidate> {
    if cs == [] then []
    else Filter(keep, cs[..|cs| - 1]) + if keep(cs[|cs| - 1]) then [cs[|cs| - 1]] else []
  }

  function Collected(pass: Pass, n: Naming, preferred: string, cs: seq<Candidate>): seq<Candidate> {
    Filter(c => Collects(pass, n, preferred, c), cs)
  }

  function Officials(n: Naming, preferred: string, cs: seq<Candidate>): seq<Candidate> {
    Collected(OfficialPass, n, preferred, cs)
  }

  function Prefixed(n: Naming, preferred: string, cs: seq<Candidate>): seq<Candidate> {
    Collected(PrefixedPass, n, preferred, cs)
  }

  /** The candidates among which the choice is made: the official ones, else the prefixed ones, else all. */
  function Pool(n: Naming, preferred: string, cs: seq<Candidate>): seq<Candidate> {
    if preferred != "" && Officials(n, preferred, cs) != [] then Officials(n, preferred, cs)
    else if preferred != "" && Prefixed(n, preferred, cs) != [] then Prefixed(n, preferred, cs)
    else cs
  }

  /** The provider by which that pool is ranked; without one all ranks are equal. */
  function RankedBy(n: Naming, preferred: string, cs: seq<Candidate>): string {
    if preferred != "" && (Officials(n, preferred, cs) != [] || Prefixed(n, preferred, cs) != []) then preferred else ""
  }

  function Choose(n: Naming, cs: seq<Candidate>): Candidate
    requires cs != []
  {
    var preferred := n.preferred(cs[0].canonical);
    PickRanked(n, RankedBy(n, preferred, cs), Pool(n, preferred, cs))
  }

  /** `chooseModelsDevCandidateFromProvider` */
  method ChooseFromProvider(n: Naming, cs: seq<Candidate>, preferred: string) returns (selected: Candidate)
    requires cs != []
    ensures selected == PickRanked(n, preferred, cs)
  {
    selected := cs[0];
    var selectedRank := Rank(n, selected, preferred);
    for i := 1 to |cs|
      invariant selected == PickRanked(n, preferred, cs[..i])
      invariant selectedRank == Rank(n, selected, preferred)
    {
      assert cs[..i + 1][..i] == cs[..i];
      var rank := Rank(n, cs[i], preferred);
      if rank < selectedRank || (rank == selectedRank && ShouldReplace(selected, cs[i])) {
        selected, selectedRank := cs[i], rank;
      }
    }
    assert cs[..|cs|] == cs;
  }

  method Collect(pass: Pass, n: Naming, cs: seq<Candidate>, preferred: string) returns (r: seq<Candidate>)
    ensures r == Collected(pass, n, preferred, cs)
  {
    var keep := c => Collects(pass, n, preferred, c);
    r := [];
    for i := 0 to |cs|
      invariant r == Filter(keep, cs[..i])
    {
      assert cs[..i + 1][..i] == cs[..i];
      if keep(cs[i]) {
        r := r + [cs[i]];
      }
    }
    assert cs[..|cs|] == cs;
  }

  /** `chooseModelsDevCandidate` */
  method ChooseCandidate(n: Naming, cs: seq<Candidate>) returns (selected: Candidate)
    requires cs != []
    ensures selected == Choose(n, cs)
  {
    var preferred := n.preferred(cs[0].canonical);
    if preferred != "" {
      var official := Collect(OfficialPass, n, cs, preferred);
      if |official| > 0 {
        selected := ChooseFromProvider(n, official, preferred);
        return;
      }
      var prefixed := Collect(PrefixedPass, n, cs, preferred);
      if |prefixed| > 0 {
        selected := ChooseFromProvider(n, prefixed, preferred);
        return;
      }
    }
    selected := ChooseAny(n, cs);
  }

  method ChooseAny(n: Naming, cs: seq<Candidate>) returns (selected: Candidate)
    requires cs != []
    ensures selected == PickRanked(n, "", cs)
  {
    selected := cs[0];
    for i := 1 to |cs|
      invariant selected == PickRanked(n, "", cs[..i])
    {
      assert cs[..i + 1][..i] == cs[..i];
      if ShouldReplace(selected, cs[i]) {
        selected := cs[i];
      }
    }
    assert cs[..|cs|] == cs;
  }

  lemma {:induction false} FilterMembers(keep: Candidate -> bool, cs: seq<Candidate>)
    ensures forall c :: c in Filter(keep, cs) <==> c in cs && keep(c)
  {
    if cs != [] {
      FilterMembers(keep, cs[..|cs| - 1]);
      assert cs == cs[..|cs| - 1] + [cs[|cs| - 1]];
    }
  }

  lemma CollectedMembers(pass: Pass, n: Naming, preferred: string, cs: seq<Candidate>)
    ensures forall c :: c in Collected(pass, n, preferred, cs) <==> c in cs && Collects(pass, n, preferred, c)
  {
    FilterMembers(c => Collects(pass, n, preferred, c), cs);
  }

  // ---------------------------------------------------------------- the order behind it

  predicate LexLess(a: Candidate, b: Candidate) {
    if a.provider != b.provider then Less(a.provider, b.provider)
    else if a.key != b.key then Less(a.key, b.key)
    else Less(a.id, b.id)
  }

  /** Priced before free, then cheaper, then by provider, key and identifier. */
  predicate Cheaper(a: Candidate, b: Candidate) {
    if (a.input > 0.0) != (b.input > 0.0) then a.input > 0.0
    else if a.input > 0.0 && a.input != b.input then a.input < b.input
    else LexLess(a, b)
  }

  /**
    The class of a candidate: among the official provider's listings the identifier rank decides; of the
    others only a provider-prefixed identifier stands out.
   */
  function Class(n: Naming, preferred: string, c: Candidate): nat {
    if preferred == "" then 0
    else if Official(n, c, preferred) then Rank(n, c, preferred)
    else if Rank(n, c, preferred) == 0 then 3 else 4
  }

  predicate Better(n: Naming, preferred: string, a: Candidate, b: Candidate) {
    var x, y := Class(n, preferred, a), Class(n, preferred, b);
    x < y || (x == y && Cheaper(a, b))
  }

  /** Strictly better than every other candidate. */
  predicate Least(n: Naming, preferred: string, cs: seq<Candidate>, c: Candidate) {
    c in cs && forall x :: x in cs && x != c ==> Better(n, preferred, c, x)
  }

  predicate SameIdentity(a: Candidate, b: Candidate) {
    a.provider == b.provider && a.key == b.key && a.id == b.id
  }

  /**
    One listing per identity, one canonical name, and no two positive prices that differ by less than
    the tolerance.
   */
  predicate Orderly(cs: seq<Candidate>) {
    && (forall a, b :: a in cs && b in cs && SameIdentity(a, b) ==> a == b)
    && (forall a, b :: a in cs && b in cs ==> a.canonical == b.canonical)
    && (forall a, b :: a in cs && b in cs && a.input > 0.0 && b.input > 0.0 && NearlyEqual(a.input, b.input)
                       ==> a.input == b.input)
  }

  lemma LexTotal(a: Candidate, b: Candidate)
    ensures !(LexLess(a, b) && LexLess(b, a))
    ensures LexLess(a, b) || LexLess(b, a) || SameIdentity(a, b)
  {
    LessTrichotomy(a.provider, b.provider);
    LessTrichotomy(a.key, b.key);
    LessTrichotomy(a.id, b.id);
  }

  lemma LexTransitive(a: Candidate, b: Candidate, c: Candidate)
    requires LexLess(a, b) && LexLess(b, c)
    ensures LexLess(a, c)
  {
    if a.provider == b.provider == c.provider {
      if a.key == b.key == c.key {
        LessTransitive(a.id, b.id, c.id);
      } else if a.key != b.key && b.key != c.key {
        LessTransitive(a.key, b.key, c.key);
        LessTrichotomy(a.key, a.key);
      }
    } else if a.provider != b.provider && b.provider != c.provider {
      LessTransitive(a.provider, b.provider, c.provider);
      LessTrichotomy(a.provider, a.provider);
    }
  }

  lemma CheaperTransitive(a: Candidate, b: Candidate, c: Candidate)
    requires Cheaper(a, b) && Cheaper(b, c)
    ensures Cheaper(a, c)
  {
    if LexLess(a, b) && LexLess(b, c) {
      LexTransitive(a, b, c);
    }
  }

  /** In an orderly list replacing is moving down the order, and the order is total. */
  lemma ReplaceIsCheaper(cs: seq<Candidate>, a: Candidate, b: Candidate)
    requires Orderly(cs) && a in cs && b in cs
    ensures ShouldReplace(b, a) <==> Cheaper(a, b)
    ensures a != b ==> Cheaper(a, b) || Cheaper(b, a)
    ensures !Cheaper(a, a)
  {
    LexTotal(a, b);
    LexTotal(a, a);
  }

  lemma {:induction false} PickRankedLeast(n: Naming, preferred: string, cs: seq<Candidate>)
    requires cs != [] && Orderly(cs)
    ensures var r := PickRanked(n, preferred, cs);
            && r in cs
            && forall x :: x in cs && x != r ==>
                 Rank(n, r, preferred) < Rank(n, x, preferred)
                 || (Rank(n, r, preferred) == Rank(n, x, preferred) && Cheaper(r, x))
  {
    if |cs| > 1 {
      var front, c := cs[..|cs| - 1], cs[|cs| - 1];
      assert cs == front + [c];
      assert forall x :: x in front ==> x in cs;
      PickRankedLeast(n, preferred, front);
      var selected, r := PickRanked(n, preferred, front), PickRanked(n, preferred, cs);
      ReplaceIsCheaper(cs, c, selected);
      forall x | x in cs && x != r
        ensures Rank(n, r, preferred) < Rank(n, x, preferred)
                || (Rank(n, r, preferred) == Rank(n, x, preferred) && Cheaper(r, x))
      {
        if x in front && x != selected && r == c && Cheaper(c, selected) && Cheaper(selected, x) {
          CheaperTransitive(c, selected, x);
        }
      }
    }
  }

  lemma LeastOfficial(n: Naming, preferred: string, cs: seq<Candidate>)
    requires Orderly(cs) && preferred != "" && Officials(n, preferred, cs) != []
    ensures Least(n, preferred, cs, PickRanked(n, preferred, Officials(n, preferred, cs)))
  {
    var official := Officials(n, preferred, cs);
    CollectedMembers(OfficialPass, n, preferred, cs);
    assert forall c :: c in official <==> c in cs && Official(n, c, preferred);
    PickRankedLeast(n, preferred, official);
  }

  lemma LeastPrefixed(n: Naming, preferred: string, cs: seq<Candidate>)
    requires Orderly(cs) && preferred != ""
    requires Officials(n, preferred, cs) == [] && Prefixed(n, preferred, cs) != []
    ensures Least(n, preferred, cs, PickRanked(n, preferred, Prefixed(n, preferred, cs)))
  {
    var prefixed := Prefixed(n, preferred, cs);
    NoneCollected(OfficialPass, n, preferred, cs);
    CollectedMembers(PrefixedPass, n, preferred, cs);
    assert forall c :: c in prefixed <==> c in cs && Rank(n, c, preferred) == 0;
    PickRankedLeast(n, preferred, prefixed);
  }

  lemma LeastOfAll(n: Naming, preferred: string, cs: seq<Candidate>)
    requires cs != [] && Orderly(cs)
    requires preferred != "" ==> Officials(n, preferred, cs) == [] && Prefixed(n, preferred, cs) == []
    ensures Least(n, preferred, cs, PickRanked(n, "", cs))
  {
    PickRankedLeast(n, "", cs);
    if preferred != "" {
      NoneCollected(OfficialPass, n, preferred, cs);
      NoneCollected(PrefixedPass, n, preferred, cs);
    }
  }

  /** The three passes together pick the least candidate. */
  lemma ChooseIsLeast(n: Naming, cs: seq<Candidate>)
    requires cs != [] && Orderly(cs)
    ensures Least(n, n.preferred(cs[0].canonical), cs, Choose(n, cs))
  {
    var preferred := n.preferred(cs[0].canonical);
    if preferred != "" && Officials(n, preferred, cs) != [] {
      LeastOfficial(n, preferred, cs);
    } else if preferred != "" && Prefixed(n, preferred, cs) != [] {
      LeastPrefixed(n, preferred, cs);
    } else {
      LeastOfAll(n, preferred, cs);
    }
  }

  lemma NoneCollected(pass: Pass, n: Naming, preferred: string, cs: seq<Candidate>)
    requires Collected(pass, n, preferred, cs) == []
    ensures forall c :: c in cs ==> !Collects(pass, n, preferred, c)
  {
    CollectedMembers(pass, n, preferred, cs);
    forall c | c in cs ensures !Collects(pass, n, preferred, c) {
      assert c !in Collected(pass, n, preferred, cs);
    }
  }

  // ---------------------------------------------------------------- when the order does not matter

  predicate DuplicateFree(cs: seq<Candidate>) {
    forall c :: c in cs ==> multiset(cs)[c] == 1
  }

  predicate OneName(cs: seq<Candidate>) {
    forall a, b :: a in cs && b in cs ==> a.canonical == b.canonical
  }

  /** `c` replaces each other candidate of the pool, and none of them replaces it. */
  predicate Dominates(n: Naming, preferred: string, pool: seq<Candidate>, c: Candidate) {
    c in pool && forall x :: x in pool && x != c ==> Beats(n, preferred, c, x)
  }

  predicate Beats(n: Naming, preferred: string, c: Candidate, x: Candidate) {
    ReplacesRanked(n, preferred, x, c) && !ReplacesRanked(n, preferred, c, x)
  }

  lemma {:induction false} PickMember(n: Naming, preferred: string, cs: seq<Candidate>)
    requires cs != []
    ensures PickRanked(n, preferred, cs) in cs
  {
    if |cs| > 1 {
      PickMember(n, preferred, cs[..|cs| - 1]);
      assert forall x :: x in cs[..|cs| - 1] ==> x in cs;
    }
  }

  /** A dominating candidate is picked wherever it stands. */
  lemma {:induction false} PickDominating(n: Naming, preferred: string, cs: seq<Candidate>, c: Candidate)
    requires Dominates(n, preferred, cs, c)
    ensures PickRanked(n, preferred, cs) == c
  {
    if |cs| > 1 {
      var front, last := cs[..|cs| - 1], cs[|cs| - 1];
      assert cs == front + [last];
      assert forall x :: x in front ==> x in cs;
      assert cs[..|front|] == front;
      if c in front {
        PickDominating(n, preferred, front, c);
        assert last == c || Beats(n, preferred, c, last);
      } else {
        PickMember(n, preferred, front);
        assert Beats(n, preferred, c, PickRanked(n, preferred, front));
      }
    }
  }

  /** Whatever follows a first pair, the pick is the winner of that pair or one that follows. */
  lemma {:induction false} PickAfter(n: Naming, preferred: string, a: Candidate, b: Candidate, rest: seq<Candidate>)
    ensures var r := PickRanked(n, preferred, [a, b] + rest);
            r in rest || r == if ReplacesRanked(n, preferred, a, b) then b else a
  {
    var cs := [a, b] + rest;
    if rest == [] {
      assert cs == [a, b] && cs[..1] == [a] && PickRanked(n, preferred, [a]) == a;
    } else {
      var front := rest[..|rest| - 1];
      assert cs[..|cs| - 1] == [a, b] + front;
      PickAfter(n, preferred, a, b, front);
      assert rest == front + [rest[|rest| - 1]];
    }
  }

  /** What passes the test goes in front of what follows. */
  lemma {:induction false} FilterAfter(keep: Candidate -> bool, a: Candidate, b: Candidate, rest: seq<Candidate>)
    requires keep(a) && keep(b)
    ensures Filter(keep, [a, b] + rest) == [a, b] + Filter(keep, rest)
  {
    var cs := [a, b] + rest;
    if rest == [] {
      assert cs == [a, b] && cs[..1] == [a] && [a][..0] == [];
      assert Filter(keep, [a]) == [a];
    } else {
      var front := rest[..|rest| - 1];
      assert cs[..|cs| - 1] == [a, b] + front;
      FilterAfter(keep, a, b, front);
    }
  }

  lemma {:induction false} FilterNothing(keep: Candidate -> bool, cs: seq<Candidate>)
    requires forall c :: c in cs ==> !keep(c)
    ensures Filter(keep, cs) == []
  {
    if cs != [] {
      FilterNothing(keep, cs[..|cs| - 1]);
      assert cs[|cs| - 1] in cs;
    }
  }

  /** The pool of a list that starts with two members of the pool starts with these two. */
  lemma PoolStart(n: Naming, preferred: string, a: Candidate, b: Candidate, rest: seq<Candidate>)
    returns (others: seq<Candidate>)
    requires a in Pool(n, preferred, [a, b] + rest) && b in Pool(n, preferred, [a, b] + rest)
    ensures Pool(n, preferred, [a, b] + rest) == [a, b] + others && forall x :: x in others ==> x in rest
  {
    var cs := [a, b] + rest;
    CollectedMembers(OfficialPass, n, preferred, cs);
    CollectedMembers(PrefixedPass, n, preferred, cs);
    if preferred != "" && Officials(n, preferred, cs) != [] {
      others := CollectedStart(OfficialPass, n, preferred, a, b, rest);
    } else if preferred != "" && Prefixed(n, preferred, cs) != [] {
      others := CollectedStart(PrefixedPass, n, preferred, a, b, rest);
    } else {
      others := rest;
    }
  }

  lemma CollectedStart(pass: Pass, n: Naming, preferred: string, a: Candidate, b: Candidate, rest: seq<Candidate>)
    returns (others: seq<Candidate>)
    requires Collects(pass, n, preferred, a) && Collects(pass, n, preferred, b)
    ensures Collected(pass, n, preferred, [a, b] + rest) == [a, b] + others && forall x :: x in others ==> x in rest
  {
    others := Collected(pass, n, preferred, rest);
    CollectedMembers(pass, n, preferred, rest);
    FilterAfter(c => Collects(pass, n, preferred, c), a, b, rest);
  }

  ghost predicate SameMembers(cs: seq<Candidate>, ds: seq<Candidate>) {
    forall x :: x in cs <==> x in ds
  }

  lemma PermutationMembers(cs: seq<Candidate>, ds: seq<Candidate>)
    requires multiset(cs) == multiset(ds)
    ensures SameMembers(cs, ds) && |cs| == |ds|
  {
    forall x ensures x in cs <==> x in ds {
      assert x in cs <==> x in multiset(cs);
      assert x in ds <==> x in multiset(ds);
    }
    assert |multiset(cs)| == |multiset(ds)|;
  }

  /** Which candidates are in the pool, and how they are ranked, does not depend on the order. */
  lemma PoolIgnoresOrder(n: Naming, preferred: string, cs: seq<Candidate>, ds: seq<Candidate>)
    requires SameMembers(cs, ds)
    ensures SameMembers(Pool(n, preferred, cs), Pool(n, preferred, ds))
    ensures RankedBy(n, preferred, cs) == RankedBy(n, preferred, ds)
  {
    CollectedTogether(OfficialPass, n, preferred, cs, ds);
    CollectedTogether(PrefixedPass, n, preferred, cs, ds);
  }

  lemma CollectedTogether(pass: Pass, n: Naming, preferred: string, cs: seq<Candidate>, ds: seq<Candidate>)
    requires SameMembers(cs, ds)
    ensures SameMembers(Collected(pass, n, preferred, cs), Collected(pass, n, preferred, ds))
    ensures Collected(pass, n, preferred, cs) == [] <==> Collected(pass, n, preferred, ds) == []
  {
    CollectedMembers(pass, n, preferred, cs);
    CollectedMembers(pass, n, preferred, ds);
    EmptyTogether(Collected(pass, n, preferred, cs), Collected(pass, n, preferred, ds));
  }

  lemma EmptyTogether(cs: seq<Candidate>, ds: seq<Candidate>)
    requires SameMembers(cs, ds)
    ensures cs == [] <==> ds == []
  {
    assert cs == [] || cs[0] in cs;
    assert ds == [] || ds[0] in ds;
  }

  lemma PoolWithin(n: Naming, preferred: string, cs: seq<Candidate>, c: Candidate)
    requires c in Pool(n, preferred, cs)
    ensures c in cs
  {
    CollectedMembers(OfficialPass, n, preferred, cs);
    CollectedMembers(PrefixedPass, n, preferred, cs);
  }

  function Remove(cs: seq<Candidate>, c: Candidate): (r: seq<Candidate>)
    ensures multiset(r) == multiset(cs) - multiset{c}
  {
    if cs == [] then []
    else
      var front, last := cs[..|cs| - 1], cs[|cs| - 1];
      assert cs == front + [last];
      if last == c then front else Remove(front, c) + [last]
  }

  /** The same candidates with `a` and `b` first. */
  lemma PairFirst(cs: seq<Candidate>, a: Candidate, b: Candidate) returns (rest: seq<Candidate>)
    requires DuplicateFree(cs) && a in cs && b in cs && a != b
    ensures multiset([a, b] + rest) == multiset(cs) && a !in rest && b !in rest
  {
    rest := Remove(Remove(cs, a), b);
    TakePair(multiset(cs), a, b);
    assert multiset([a, b] + rest) == multiset([a, b]) + multiset(rest);
    assert multiset([a, b]) == multiset{a, b};
    assert a in rest <==> multiset(rest)[a] > 0;
    assert b in rest <==> multiset(rest)[b] > 0;
  }

  lemma TakePair(m: multiset<Candidate>, a: Candidate, b: Candidate)
    requires m[a] == 1 && m[b] == 1 && a != b
    ensures var rest := m - multiset{a} - multiset{b};
            multiset{a, b} + rest == m && rest[a] == 0 && rest[b] == 0
  {
  }

  /** A group whose choice is the same in every order. */
  ghost predicate OrderFree(n: Naming, cs: seq<Candidate>)
    requires cs != []
  {
    forall ds :: multiset(ds) == multiset(cs) && ds != [] ==> Choose(n, ds) == Choose(n, cs)
  }

  lemma DominatedIsOrderFree(n: Naming, cs: seq<Candidate>, ds: seq<Candidate>, c: Candidate)
    requires cs != [] && ds != [] && OneName(cs) && multiset(ds) == multiset(cs)
    requires var preferred := n.preferred(cs[0].canonical);
             Dominates(n, RankedBy(n, preferred, cs), Pool(n, preferred, cs), c)
    ensures Choose(n, ds) == c
  {
    var preferred := n.preferred(cs[0].canonical);
    PermutationMembers(cs, ds);
    assert cs[0] in cs && ds[0] in ds;
    PoolIgnoresOrder(n, preferred, cs, ds);
    PickDominating(n, RankedBy(n, preferred, ds), Pool(n, preferred, ds), c);
  }

  /** With `a` and `b` first, the one that does not win that pair is not chosen. */
  lemma LoserNotChosen(n: Naming, cs: seq<Candidate>, a: Candidate, b: Candidate) returns (ds: seq<Candidate>)
    requires cs != [] && OneName(cs) && DuplicateFree(cs) && a != b
    requires a in Pool(n, n.preferred(cs[0].canonical), cs) && b in Pool(n, n.preferred(cs[0].canonical), cs)
    ensures ds != [] && multiset(ds) == multiset(cs)
    ensures var ranking := RankedBy(n, n.preferred(cs[0].canonical), cs);
            Choose(n, ds) != if ReplacesRanked(n, ranking, a, b) then a else b
  {
    var preferred := n.preferred(cs[0].canonical);
    PoolWithin(n, preferred, cs, a);
    PoolWithin(n, preferred, cs, b);
    var rest := PairFirst(cs, a, b);
    ds := [a, b] + rest;
    PermutationMembers(cs, ds);
    assert cs[0] in cs && ds[0] in ds;
    PoolIgnoresOrder(n, preferred, cs, ds);
    var others := PoolStart(n, preferred, a, b, rest);
    PickAfter(n, RankedBy(n, preferred, ds), a, b, others);
  }

  /**
    The choice from a group is the same in every order exactly when one candidate of its pool dominates the
    others.
   */
  lemma ChoiceIgnoresOrder(n: Naming, cs: seq<Candidate>)
    requires cs != [] && OneName(cs) && DuplicateFree(cs)
    ensures var preferred := n.preferred(cs[0].canonical);
            var pool, ranking := Pool(n, preferred, cs), RankedBy(n, preferred, cs);
            OrderFree(n, cs) <==> exists c :: Dominates(n, ranking, pool, c)
  {
    var preferred := n.preferred(cs[0].canonical);
    var pool, ranking := Pool(n, preferred, cs), RankedBy(n, preferred, cs);
    if c :| Dominates(n, ranking, pool, c) {
      forall ds | multiset(ds) == multiset(cs) && ds != [] ensures Choose(n, ds) == Choose(n, cs) {
        DominatedIsOrderFree(n, cs, ds, c);
        DominatedIsOrderFree(n, cs, cs, c);
      }
    } else if OrderFree(n, cs) {
      var c := Choose(n, cs);
      PickMember(n, ranking, pool);
      forall x | x in pool && x != c ensures Beats(n, ranking, c, x) {
        var ds := LoserNotChosen(n, cs, x, c);
        var es := LoserNotChosen(n, cs, c, x);
        assert Choose(n, ds) == c && Choose(n, es) == c;
      }
      assert Dominates(n, ranking, pool, c);
    }
  }

  /** Orderly groups, with prices equal or at least the tolerance apart, have a dominating candidate. */
  lemma OrderlyIsOrderFree(n: Naming, cs: seq<Candidate>)
    requires cs != [] && Orderly(cs)
    ensures var preferred := n.preferred(cs[0].canonical);
            Dominates(n, RankedBy(n, preferred, cs), Pool(n, preferred, cs), Choose(n, cs))
    ensures OrderFree(n, cs)
  {
    var preferred := n.preferred(cs[0].canonical);
    var pool, ranking, c := Pool(n, preferred, cs), RankedBy(n, preferred, cs), Choose(n, cs);
    forall x | x in pool ensures x in cs {
      PoolWithin(n, preferred, cs, x);
    }
    PickRankedLeast(n, ranking, pool);
    forall x | x in pool && x != c ensures Beats(n, ranking, c, x) {
      ReplaceIsCheaper(cs, c, x);
      ReplaceIsCheaper(cs, x, c);
      LexTotal(c, x);
    }
    forall ds | multiset(ds) == multiset(cs) && ds != [] ensures Choose(n, ds) == Choose(n, cs) {
      DominatedIsOrderFree(n, cs, ds, c);
    }
  }

  /** A chain of prices, each within the tolerance of the next, has no dominating candidate. */
  lemma NearPricesDependOnOrder(n: Naming)
    requires n.preferred("m") == ""
    ensures var a, b, c := Candidate("c", "k", "i", "m", 1.0), Candidate("b", "k", "i", "m", 1.0000000006),
                           Candidate("a", "k", "i", "m", 1.0000000012);
            Choose(n, [a, b, c]) == c && Choose(n, [c, b, a]) == a
  {
    var a, b, c := Candidate("c", "k", "i", "m", 1.0), Candidate("b", "k", "i", "m", 1.0000000006),
                   Candidate("a", "k", "i", "m", 1.0000000012);
    assert ShouldReplace(a, b) && ShouldReplace(b, c);
    assert !ShouldReplace(c, b) && ShouldReplace(c, a);
    PickThree(n, a, b, c);
    PickThree(n, c, b, a);
  }

  lemma PickThree(n: Naming, a: Candidate, b: Candidate, c: Candidate)
    ensures PickRanked(n, "", [a, b, c])
            == var first := if ShouldReplace(a, b) then b else a;
               if ShouldReplace(first, c) then c else first
  {
    assert [a, b, c][..2] == [a, b] && [a, b][..1] == [a];
    assert PickRanked(n, "", [a]) == a;
    assert PickRanked(n, "", [a, b]) == if ShouldReplace(a, b) then b else a;
  }

  /** Without an official or prefixed listing the identifier rank is not consulted: a cheaper one wins. */
  lemma RankIgnoredElsewhere(n: Naming, preferred: string, a: Candidate, b: Candidate)
    requires preferred != "" && n.preferred(a.canonical) == preferred
    requires !Official(n, a, preferred) && !Official(n, b, preferred)
    requires Rank(n, a, preferred) == 1 && Rank(n, b, preferred) == 2
    requires a.input > b.input > 0.0 && !NearlyEqual(a.input, b.input)
    ensures Choose(n, [a, b]) == b
  {
    var cs := [a, b];
    FilterNothing(c => Collects(OfficialPass, n, preferred, c), cs);
    FilterNothing(c => Collects(PrefixedPass, n, preferred, c), cs);
    assert cs[..1] == [a] && PickRanked(n, "", [a]) == a;
  }

  // ---------------------------------------------------------------- written out

  /** The identifier or the key of a listing is spelled `text`, up to case and surrounding spaces. */
  predicate SpelledAs(n: Naming, c: Candidate, text: string) {
    n.lower(TrimSpace(c.id)) == text || n.lower(TrimSpace(c.key)) == text
  }

  lemma RankSpelling(n: Naming, c: Candidate, preferred: string)
    requires preferred != ""
    ensures Rank(n, c, preferred) == 0 <==> SpelledAs(n, c, preferred + "/" + n.lower(c.canonical))
    ensures Rank(n, c, preferred) <= 1
            <==> SpelledAs(n, c, preferred + "/" + n.lower(c.canonical)) || SpelledAs(n, c, n.lower(c.canonical))
  {
  }

  /** No candidate has a smaller rank than the one picked. */
  lemma {:induction false} PickHasLeastRank(n: Naming, preferred: string, cs: seq<Candidate>)
    requires cs != []
    ensures forall c :: c in cs ==> Rank(n, PickRanked(n, preferred, cs), preferred) <= Rank(n, c, preferred)
  {
    if |cs| > 1 {
      var front, last := cs[..|cs| - 1], cs[|cs| - 1];
      var before, now := PickRanked(n, preferred, front), PickRanked(n, preferred, cs);
      PickHasLeastRank(n, preferred, front);
      assert now == if ReplacesRanked(n, preferred, before, last) then last else before;
      assert Rank(n, now, preferred) <= Rank(n, before, preferred);
      assert Rank(n, now, preferred) <= Rank(n, last, preferred);
      forall c | c in cs ensures Rank(n, now, preferred) <= Rank(n, c, preferred) {
        assert c in front || c == last;
      }
    }
  }

  /** Without an official listing, one spelled provider/name is chosen over all that are spelled otherwise. */
  lemma PrefixedIsChosen(n: Naming, cs: seq<Candidate>, a: Candidate)
    requires a in cs && OneName(cs) && n.preferred(cs[0].canonical) != ""
    requires forall c :: c in cs ==> n.normalize(c.provider) != n.preferred(cs[0].canonical)
    requires SpelledAs(n, a, n.preferred(cs[0].canonical) + "/" + n.lower(a.canonical))
    ensures Choose(n, cs) in cs
    ensures SpelledAs(n, Choose(n, cs), n.preferred(cs[0].canonical) + "/" + n.lower(a.canonical))
  {
    var preferred := n.preferred(cs[0].canonical);
    CollectedMembers(OfficialPass, n, preferred, cs);
    CollectedMembers(PrefixedPass, n, preferred, cs);
    NoneOf(Officials(n, preferred, cs));
    RankSpelling(n, a, preferred);
    var prefixed := Prefixed(n, preferred, cs);
    assert a in prefixed;
    PickMember(n, preferred, prefixed);
    RankSpelling(n, Choose(n, cs), preferred);
  }

  lemma NoneOf(cs: seq<Candidate>)
    ensures cs == [] <==> forall c :: c !in cs
  {
    assert cs == [] || cs[0] in cs;
  }

  /**
    With an official listing an official one is chosen, spelled provider/name if any of them is, and else by
    the bare name if any of them is.
   */
  lemma OfficialIsChosen(n: Naming, cs: seq<Candidate>, a: Candidate)
    requires a in cs && OneName(cs) && n.preferred(cs[0].canonical) != ""
    requires n.normalize(a.provider) == n.preferred(cs[0].canonical)
    ensures var preferred, r := n.preferred(cs[0].canonical), Choose(n, cs);
            var bare, prefixed := n.lower(a.canonical), preferred + "/" + n.lower(a.canonical);
            && r in cs && n.normalize(r.provider) == preferred
            && (SpelledAs(n, a, prefixed) ==> SpelledAs(n, r, prefixed))
            && (SpelledAs(n, a, bare) ==> SpelledAs(n, r, prefixed) || SpelledAs(n, r, bare))
  {
    var preferred := n.preferred(cs[0].canonical);
    CollectedMembers(OfficialPass, n, preferred, cs);
    var official := Officials(n, preferred, cs);
    assert a in official;
    PickMember(n, preferred, official);
    PickHasLeastRank(n, preferred, official);
    RankSpelling(n, a, preferred);
    RankSpelling(n, Choose(n, cs), preferred);
  }

  /** Of two listings from which no stage picks, the order by price and then by name decides. */
  lemma CheaperIsChosen(n: Naming, a: Candidate, b: Candidate)
    requires n.preferred(a.canonical) == "" && n.preferred(b.canonical) == ""
    requires || (a.input > 0.0 && b.input <= 0.0)
             || (a.input > 0.0 && b.input - a.input >= 0.000000001)
             || (a.input == b.input && Less(a.provider, b.provider))
             || (a.input == b.input && a.provider == b.provider && Less(a.key, b.key))
             || (a.input == b.input && a.provider == b.provider && a.key == b.key && Less(a.id, b.id))
    ensures Choose(n, [a, b]) == a && Choose(n, [b, a]) == a
  {
    LessTrichotomy(a.provider, b.provider);
    LessTrichotomy(a.key, b.key);
    LessTrichotomy(a.id, b.id);
    PickTwo(n, a, b);
    PickTwo(n, b, a);
  }

  lemma PickTwo(n: Naming, a: Candidate, b: Candidate)
    ensures PickRanked(n, "", [a, b]) == if ShouldReplace(a, b) then b else a
  {
    assert [a, b][..1] == [a] && PickRanked(n, "", [a]) == a;
  }
}
