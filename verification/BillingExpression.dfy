/**
  Compilation of a context-tier price table into a nested conditional billing expression.
 */
module BillingExpression {
  import opened Numbers
  import opened Text
  import opened Wrappers

  /** The prices per million tokens, absent ones being nil. */
  datatype Price = Price(
    input: Option<real>,
    output: Option<real>,
    cacheRead: Option<real>,
    cacheWrite: Option<real>,
    inputAudio: Option<real>,
    outputAudio: Option<real>)

  datatype CostTier = CostTier(price: Price, kind: string, size: Option<real>)

  datatype Cost = Cost(base: Price, tiers: seq<CostTier>, over200K: Option<Price>)

  datatype ContextTier = ContextTier(size: int, price: Price)

  const OVER_200K := 200000

  predicate ValidCost(v: Option<real>) {
    v.Some? ==> v.value >= 0.0
  }

  /** `isValidModelsDevPrice` */
  predicate ValidPrice(p: Price) {
    && p.input.Some?
    && ValidCost(p.input) && ValidCost(p.output) && ValidCost(p.cacheRead)
    && ValidCost(p.cacheWrite) && ValidCost(p.inputAudio) && ValidCost(p.outputAudio)
  }

  // ---------------------------------------------------------------- expressions and their meaning

  datatype Variable = P | C | CR | CC | AI | AO

  datatype Label = Standard | LongContext | ContextOver(size: int)

  datatype Term = Term(variable: Variable, cost: real)

  datatype Expr =
    | Tier(tag: Label, terms: seq<Term>)
    | IfShort(bound: int, short: Expr, long: Expr)   // len <= bound ? short : long

  /** Token counts of one request, in the order of the variables. */
  datatype Usage = Usage(p: real, c: real, cr: real, cc: real, ai: real, ao: real)

  function Tokens(u: Usage, v: Variable): real {
    match v
    case P => u.p
    case C => u.c
    case CR => u.cr
    case CC => u.cc
    case AI => u.ai
    case AO => u.ao
  }

  function Sum(terms: seq<Term>, u: Usage): real {
    if terms == [] then 0.0
    else Sum(terms[..|terms| - 1], u) + Tokens(u, terms[|terms| - 1].variable) * terms[|terms| - 1].cost
  }

  /** The tier an expression settles on and the charge it computes, for a context of `len` tokens. */
  function Eval(e: Expr, len: real, u: Usage): (Label, real) {
    match e
    case Tier(tag, terms) => (tag, Sum(terms, u))
    case IfShort(bound, short, long) => if len <= bound as real then Eval(short, len, u) else Eval(long, len, u)
  }

  // ---------------------------------------------------------------- the compiler

  const VARIABLES := [P, C, CR, CC, AI, AO]

  function PriceOf(p: Price, v: Variable): Option<real> {
    match v
    case P => p.input
    case C => p.output
    case CR => p.cacheRead
    case CC => p.cacheWrite
    case AI => p.inputAudio
    case AO => p.outputAudio
  }

  /** `modelsDevCostTerm` keeps a cost that is present and not nearly zero. */
  function TermFor(p: Price, v: Variable): seq<Term> {
    var cost := PriceOf(p, v);
    if cost.None? || NearlyEqual(cost.value, 0.0) then [] else [Term(v, cost.value)]
  }

  function Terms(p: Price, n: nat): seq<Term>
    requires n <= |VARIABLES|
  {
    if n == 0 then [] else Terms(p, n - 1) + TermFor(p, VARIABLES[n - 1])
  }

  function TierFor(tag: Label, p: Price): Expr {
    Tier(tag, Terms(p, |VARIABLES|))
  }

  /** `modelsDevTierExpression`; an expression with no term prints as 0. */
  method TierExpression(tag: Label, price: Price) returns (e: Expr)
    ensures e == TierFor(tag, price)
  {
    var terms: seq<Term> := [];
    for i := 0 to |VARIABLES|
      invariant terms == Terms(price, i)
    {
      var cost := PriceOf(price, VARIABLES[i]);
      if cost.Some? && !NearlyEqual(cost.value, 0.0) {
        terms := terms + [Term(VARIABLES[i], cost.value)];
      }
    }
    e := Tier(tag, terms);
  }

  function Lower(s: string): string {
    if s == "" then ""
    else Lower(s[..|s| - 1]) + [if 'A' <= s[|s| - 1] <= 'Z' then s[|s| - 1] - 'A' + 'a' else s[|s| - 1]]
  }

  /** A tier that takes part: of the context kind, with a positive size and valid prices. */
  predicate Usable(t: CostTier) {
    Lower(TrimSpace(t.kind)) == "context" && t.size.Some? && t.size.value > 0.0 && ValidPrice(t.price)
  }

  function UsableTiers(tiers: seq<CostTier>): seq<ContextTier> {
    if tiers == [] then []
    else
      var last := tiers[|tiers| - 1];
      UsableTiers(tiers[..|tiers| - 1])
      + if Usable(last) then [ContextTier(Round(last.size.value), last.price)] else []
  }

  /** Insertion behind every tier that is not larger: repeated, this is a stable sort by size. */
  function Insert(sorted: seq<ContextTier>, t: ContextTier): seq<ContextTier> {
    if sorted == [] || sorted[|sorted| - 1].size <= t.size then sorted + [t]
    else Insert(sorted[..|sorted| - 1], t) + [sorted[|sorted| - 1]]
  }

  function StableSort(tiers: seq<ContextTier>): seq<ContextTier> {
    if tiers == [] then [] else Insert(StableSort(tiers[..|tiers| - 1]), tiers[|tiers| - 1])
  }

  /** `modelsDevContextTiers` */
  method ContextTiers(cost: Cost) returns (tiers: seq<ContextTier>)
    ensures tiers == StableSort(UsableTiers(cost.tiers))
  {
    tiers := [];
    for i := 0 to |cost.tiers|
      invariant tiers == UsableTiers(cost.tiers[..i])
    {
      assert cost.tiers[..i + 1][..i] == cost.tiers[..i];
      var tier := cost.tiers[i];
      if Usable(tier) {
        tiers := tiers + [ContextTier(Round(tier.size.value), tier.price)];
      }
    }
    assert cost.tiers[..|cost.tiers|] == cost.tiers;
    tiers := StableSort(tiers);
  }

  /** The nested conditional over sorted tiers, once the context is known to exceed the first of them. */
  function Chain(tiers: seq<ContextTier>): Expr
    requires tiers != []
  {
    var here := TierFor(ContextOver(tiers[0].size), tiers[0].price);
    if |tiers| == 1 then here else IfShort(tiers[1].size, here, Chain(tiers[1..]))
  }

  function Compile(cost: Cost): Option<Expr> {
    if cost.over200K.Some? && ValidPrice(cost.over200K.value) then
      Some(IfShort(OVER_200K, TierFor(Standard, cost.base), TierFor(LongContext, cost.over200K.value)))
    else
      var tiers := StableSort(UsableTiers(cost.tiers));
      if tiers == [] then None
      else Some(IfShort(tiers[0].size, TierFor(Standard, cost.base), Chain(tiers)))
  }

  /** `buildModelsDevBillingExpression` */
  method BuildBillingExpression(cost: Cost) returns (r: Option<Expr>)
    ensures r == Compile(cost)
  {
    var standard := TierExpression(Standard, cost.base);
    if cost.over200K.Some? && ValidPrice(cost.over200K.value) {
      var long := TierExpression(LongContext, cost.over200K.value);
      return Some(IfShort(OVER_200K, standard, long));
    }
    var tiers := ContextTiers(cost);
    if |tiers| == 0 {
      return None;
    }
    var last := tiers[|tiers| - 1];
    var expression := TierExpression(ContextOver(last.size), last.price);
    assert tiers[|tiers| - 1..] == [last];
    var i := |tiers| - 2;
    while i >= 0
      invariant -1 <= i <= |tiers| - 2
      invariant expression == Chain(tiers[i + 1..])
    {
      var here := TierExpression(ContextOver(tiers[i].size), tiers[i].price);
      assert tiers[i..][1..] == tiers[i + 1..];
      expression := IfShort(tiers[i + 1].size, here, expression);
      i := i - 1;
    }
    assert tiers[0..] == tiers;
    r := Some(IfShort(tiers[0].size, standard, expression));
  }

  // ---------------------------------------------------------------- which tier applies

  /**
    The tier that should apply to a context of `len` tokens: of the usable tiers smaller than it, the
    largest one, and the last listed among equals. No sorting is involved.
   */
  function Applicable(tiers: seq<ContextTier>, len: real): Option<ContextTier> {
    if tiers == [] then None
    else
      var best := Applicable(tiers[..|tiers| - 1], len);
      var last := tiers[|tiers| - 1];
      if last.size as real < len && (best.None? || best.value.size <= last.size) then Some(last) else best
  }

  predicate IsApplicable(tiers: seq<ContextTier>, len: real, k: nat) {
    && k < |tiers|
    && tiers[k].size as real < len
    && forall j :: 0 <= j < |tiers| && tiers[j].size as real < len
                   ==> tiers[j].size < tiers[k].size || (tiers[j].size == tiers[k].size && j <= k)
  }

  /** The fold above computes that choice, and there is none only when every tier is too large. */
  lemma {:induction false} ApplicableIs(tiers: seq<ContextTier>, len: real) returns (k: nat)
    ensures Applicable(tiers, len).Some? ==> IsApplicable(tiers, len, k) && Applicable(tiers, len).value == tiers[k]
    ensures Applicable(tiers, len).None? <==> forall j :: 0 <= j < |tiers| ==> tiers[j].size as real >= len
    decreases |tiers|
  {
    if tiers == [] {
      k := 0;
    } else {
      var n := |tiers| - 1;
      k := ApplicableIs(tiers[..n], len);
      if tiers[n].size as real < len
         && (Applicable(tiers[..n], len).None? || Applicable(tiers[..n], len).value.size <= tiers[n].size) {
        k := n;
      }
    }
  }

  /** The last tier of a list that is smaller than the context. */
  function LastBelow(tiers: seq<ContextTier>, len: real): Option<ContextTier> {
    if tiers == [] then None
    else if tiers[|tiers| - 1].size as real < len then Some(tiers[|tiers| - 1])
    else LastBelow(tiers[..|tiers| - 1], len)
  }

  predicate Sorted(tiers: seq<ContextTier>) {
    forall i, j :: 0 <= i < j < |tiers| ==> tiers[i].size <= tiers[j].size
  }

  lemma {:induction false} InsertSorted(sorted: seq<ContextTier>, t: ContextTier)
    requires Sorted(sorted)
    ensures Sorted(Insert(sorted, t))
    ensures forall k :: 0 <= k < |Insert(sorted, t)| ==> Insert(sorted, t)[k] == t || Insert(sorted, t)[k] in sorted
    decreases |sorted|
  {
    if sorted != [] && sorted[|sorted| - 1].size > t.size {
      InsertSorted(sorted[..|sorted| - 1], t);
    }
  }

  lemma {:induction false} InsertContents(sorted: seq<ContextTier>, t: ContextTier)
    ensures multiset(Insert(sorted, t)) == multiset(sorted) + multiset{t}
    decreases |sorted|
  {
    if sorted != [] && sorted[|sorted| - 1].size > t.size {
      var front, last := sorted[..|sorted| - 1], sorted[|sorted| - 1];
      assert sorted == front + [last];
      InsertContents(front, t);
    }
  }

  /** Sorting loses and invents no tier. */
  lemma {:induction false} SortContents(tiers: seq<ContextTier>)
    ensures multiset(StableSort(tiers)) == multiset(tiers)
    decreases |tiers|
  {
    if tiers != [] {
      var front, last := tiers[..|tiers| - 1], tiers[|tiers| - 1];
      assert tiers == front + [last];
      SortContents(front);
      InsertContents(StableSort(front), last);
    }
  }

  /** Inserting changes the choice exactly as listing one tier more does. */
  lemma {:induction false} InsertLastBelow(sorted: seq<ContextTier>, t: ContextTier, len: real)
    requires Sorted(sorted)
    ensures LastBelow(Insert(sorted, t), len)
            == var best := LastBelow(sorted, len);
               if t.size as real < len && (best.None? || best.value.size <= t.size) then Some(t) else best
    decreases |sorted|
  {
    var r := Insert(sorted, t);
    if sorted == [] || sorted[|sorted| - 1].size <= t.size {
      assert r[..|r| - 1] == sorted;
      LastBelowSize(sorted, len);
    } else {
      var front := sorted[..|sorted| - 1];
      assert r[..|r| - 1] == Insert(front, t);
      InsertLastBelow(front, t, len);
    }
  }

  lemma {:induction false} LastBelowSize(sorted: seq<ContextTier>, len: real)
    requires Sorted(sorted)
    ensures LastBelow(sorted, len).Some? ==> LastBelow(sorted, len).value.size <= sorted[|sorted| - 1].size
    decreases |sorted|
  {
    if sorted != [] && sorted[|sorted| - 1].size as real >= len {
      LastBelowSize(sorted[..|sorted| - 1], len);
    }
  }

  /** After sorting by size the last tier below the context is the applicable one. */
  lemma {:induction false} SortSelects(tiers: seq<ContextTier>, len: real)
    ensures Sorted(StableSort(tiers))
    ensures LastBelow(StableSort(tiers), len) == Applicable(tiers, len)
    decreases |tiers|
  {
    if tiers != [] {
      var front, last := tiers[..|tiers| - 1], tiers[|tiers| - 1];
      SortSelects(front, len);
      InsertSorted(StableSort(front), last);
      InsertLastBelow(StableSort(front), last, len);
    }
  }

  lemma {:induction false} LastBelowTail(tiers: seq<ContextTier>, len: real)
    requires tiers != [] && LastBelow(tiers[1..], len).Some?
    ensures LastBelow(tiers, len) == LastBelow(tiers[1..], len)
    decreases |tiers|
  {
    if tiers[|tiers| - 1].size as real >= len {
      assert tiers[1..][..|tiers| - 2] == tiers[..|tiers| - 1][1..];
      LastBelowTail(tiers[..|tiers| - 1], len);
    }
  }

  lemma {:induction false} NoneBelow(tiers: seq<ContextTier>, len: real)
    requires forall j :: 0 <= j < |tiers| ==> tiers[j].size as real >= len
    ensures LastBelow(tiers, len).None?
    decreases |tiers|
  {
    if tiers != [] {
      NoneBelow(tiers[..|tiers| - 1], len);
    }
  }

  /** The nested conditional walks to the last tier below the context. */
  lemma {:induction false} EvalChain(tiers: seq<ContextTier>, len: real, u: Usage)
    requires tiers != [] && Sorted(tiers) && tiers[0].size as real < len
    ensures LastBelow(tiers, len).Some?
    ensures var t := LastBelow(tiers, len).value;
            Eval(Chain(tiers), len, u) == Eval(TierFor(ContextOver(t.size), t.price), len, u)
    decreases |tiers|
  {
    if |tiers| == 1 {
    } else if tiers[1].size as real < len {
      EvalChain(tiers[1..], len, u);
      LastBelowTail(tiers, len);
    } else {
      OnlyFirstBelow(tiers, len);
    }
  }

  lemma {:induction false} OnlyFirstBelow(tiers: seq<ContextTier>, len: real)
    requires tiers != [] && tiers[0].size as real < len
    requires forall j :: 1 <= j < |tiers| ==> tiers[j].size as real >= len
    ensures LastBelow(tiers, len) == Some(tiers[0])
    decreases |tiers|
  {
    if |tiers| > 1 {
      OnlyFirstBelow(tiers[..|tiers| - 1], len);
    }
  }

  // ---------------------------------------------------------------- meaning is preserved

  /** The tier and price that the table itself prescribes for a context length. */
  function Prescribed(cost: Cost, len: real): (Label, Price) {
    if cost.over200K.Some? && ValidPrice(cost.over200K.value) then
      if len <= OVER_200K as real then (Standard, cost.base) else (LongContext, cost.over200K.value)
    else
      match Applicable(UsableTiers(cost.tiers), len)
      case None => (Standard, cost.base)
      case Some(t) => (ContextOver(t.size), t.price)
  }

  /** The compiled expression selects the prescribed tier for every length and evaluates its terms. */
  lemma CompiledSelects(cost: Cost, len: real, u: Usage)
    requires Compile(cost).Some?
    ensures var (tag, price) := Prescribed(cost, len);
            Eval(Compile(cost).value, len, u) == Eval(TierFor(tag, price), len, u)
  {
    if !(cost.over200K.Some? && ValidPrice(cost.over200K.value)) {
      var tiers := StableSort(UsableTiers(cost.tiers));
      SortSelects(UsableTiers(cost.tiers), len);
      EvalTiers(tiers, TierFor(Standard, cost.base), len, u);
    }
  }

  lemma EvalTiers(tiers: seq<ContextTier>, standard: Expr, len: real, u: Usage)
    requires tiers != [] && Sorted(tiers)
    ensures Eval(IfShort(tiers[0].size, standard, Chain(tiers)), len, u)
            == match LastBelow(tiers, len)
               case None => Eval(standard, len, u)
               case Some(t) => Eval(TierFor(ContextOver(t.size), t.price), len, u)
  {
    if len <= tiers[0].size as real {
      NoneBelow(tiers, len);
    } else {
      EvalChain(tiers, len, u);
    }
  }

  /** There is an expression exactly when the table has an over-200K price or a usable tier. */
  lemma CompiledWhen(cost: Cost)
    ensures Compile(cost).Some?
            <==> (cost.over200K.Some? && ValidPrice(cost.over200K.value))
                 || exists k :: 0 <= k < |cost.tiers| && Usable(cost.tiers[k])
  {
    SortContents(UsableTiers(cost.tiers));
    assert |StableSort(UsableTiers(cost.tiers))| == |multiset(StableSort(UsableTiers(cost.tiers)))|;
    assert |UsableTiers(cost.tiers)| == |multiset(UsableTiers(cost.tiers))|;
    SomeUsable(cost.tiers);
  }

  lemma {:induction false} SomeUsable(tiers: seq<CostTier>)
    ensures UsableTiers(tiers) != [] <==> exists k :: 0 <= k < |tiers| && Usable(tiers[k])
  {
    if UsableTiers(tiers) != [] {
      var k := UsableFound(tiers);
      assert Usable(tiers[k]);
    } else if k :| 0 <= k < |tiers| && Usable(tiers[k]) {
      UsableKept(tiers, k);
    }
  }

  lemma {:induction false} UsableFound(tiers: seq<CostTier>) returns (k: nat)
    requires UsableTiers(tiers) != []
    ensures k < |tiers| && Usable(tiers[k])
  {
    k := |tiers| - 1;
    if !Usable(tiers[k]) {
      k := UsableFound(tiers[..k]);
    }
  }

  lemma {:induction false} UsableKept(tiers: seq<CostTier>, k: nat)
    requires k < |tiers| && Usable(tiers[k])
    ensures UsableTiers(tiers) != []
  {
    if k < |tiers| - 1 {
      UsableKept(tiers[..|tiers| - 1], k);
    }
  }

  function Exact(p: Price, v: Variable, u: Usage): real {
    var cost := PriceOf(p, v);
    if cost.None? then 0.0 else Tokens(u, v) * cost.value
  }

  /** The price sum over the first `n` variables, without dropping anything. */
  function ExactSum(p: Price, u: Usage, n: nat): real
    requires n <= |VARIABLES|
  {
    if n == 0 then 0.0 else ExactSum(p, u, n - 1) + Exact(p, VARIABLES[n - 1], u)
  }

  function TokenTotal(u: Usage, n: nat): real
    requires n <= |VARIABLES|
  {
    if n == 0 then 0.0 else TokenTotal(u, n - 1) + Tokens(u, VARIABLES[n - 1])
  }

  predicate NonNegative(u: Usage) {
    u.p >= 0.0 && u.c >= 0.0 && u.cr >= 0.0 && u.cc >= 0.0 && u.ai >= 0.0 && u.ao >= 0.0
  }

  lemma {:induction false} SumAppend(terms: seq<Term>, more: seq<Term>, u: Usage)
    requires |more| <= 1
    ensures Sum(terms + more, u) == Sum(terms, u) + Sum(more, u)
  {
    if more == [] {
      assert terms + more == terms;
    } else {
      assert (terms + more)[..|terms|] == terms && more[..0] == [];
    }
  }

  /** `d` is less than a billionth of `n`, or zero where `n` is. */
  predicate Small(d: real, n: real) {
    n >= 0.0 && (if n == 0.0 then d == 0.0 else -(EPSILON * n) < d < EPSILON * n)
  }

  lemma SmallSum(d: real, n: real, e: real, m: real)
    requires Small(d, n) && Small(e, m)
    ensures Small(d + e, n + m)
  {
  }

  lemma Scaled(n: real, c: real)
    requires n >= 0.0 && NearlyEqual(c, 0.0)
    ensures Small(-(n * c), n)
  {
    if n > 0.0 {
      assert n * (EPSILON - c) > 0.0;
      assert n * (c + EPSILON) > 0.0;
    }
  }

  lemma TermError(p: Price, v: Variable, u: Usage)
    requires Tokens(u, v) >= 0.0
    ensures Small(Sum(TermFor(p, v), u) - Exact(p, v, u), Tokens(u, v))
  {
    var cost := PriceOf(p, v);
    if cost.Some? {
      if NearlyEqual(cost.value, 0.0) {
        Scaled(Tokens(u, v), cost.value);
      } else {
        assert TermFor(p, v)[..0] == [];
      }
    }
  }

  /** One more variable in each of the three sums. */
  lemma LinearStep(p: Price, u: Usage, n: nat)
    requires 0 < n <= |VARIABLES|
    ensures var v := VARIABLES[n - 1];
            && Sum(Terms(p, n), u) == Sum(Terms(p, n - 1), u) + Sum(TermFor(p, v), u)
            && ExactSum(p, u, n) == ExactSum(p, u, n - 1) + Exact(p, v, u)
            && TokenTotal(u, n) == TokenTotal(u, n - 1) + Tokens(u, v)
  {
    var v := VARIABLES[n - 1];
    assert Terms(p, n) == Terms(p, n - 1) + TermFor(p, v);
    SumAppend(Terms(p, n - 1), TermFor(p, v), u);
  }

  lemma {:induction false} LinearError(p: Price, u: Usage, n: nat)
    requires NonNegative(u) && n <= |VARIABLES|
    ensures Small(Sum(Terms(p, n), u) - ExactSum(p, u, n), TokenTotal(u, n))
  {
    if n > 0 {
      var v := VARIABLES[n - 1];
      LinearError(p, u, n - 1);
      LinearStep(p, u, n);
      TermError(p, v, u);
      SmallSum(Sum(Terms(p, n - 1), u) - ExactSum(p, u, n - 1), TokenTotal(u, n - 1),
               Sum(TermFor(p, v), u) - Exact(p, v, u), Tokens(u, v));
    }
  }

  /**
    The charge computed by the compiled expression is the prescribed price sum, up to less than a
    billionth per token, and not off at all when there are no tokens.
   */
  lemma CompiledMeaning(cost: Cost, len: real, u: Usage)
    requires Compile(cost).Some? && NonNegative(u)
    ensures var (tag, price) := Prescribed(cost, len);
            var (chosen, charge) := Eval(Compile(cost).value, len, u);
            var exact, total := ExactSum(price, u, |VARIABLES|), TokenTotal(u, |VARIABLES|);
            && chosen == tag
            && (total > 0.0 ==> Abs(charge - exact) < EPSILON * total)
            && (total == 0.0 ==> charge == exact)
  {
    CompiledSelects(cost, len, u);
    LinearError(Prescribed(cost, len).1, u, |VARIABLES|);
  }

  // ---------------------------------------------------------------- written out

  /** Tokens at a price, nothing when the price is absent. */
  function Times(tokens: real, price: Option<real>): real {
    if price.None? then 0.0 else tokens * price.value
  }

  function TermIf(v: Variable, cost: Option<real>): seq<Term> {
    if cost.None? || (cost.value < 0.000000001 && -cost.value < 0.000000001) then [] else [Term(v, cost.value)]
  }

  /** The terms of a tier, variable by variable; a cost within a billionth of zero is left out. */
  lemma TermsWrittenOut(tag: Label, p: Price)
    ensures TierFor(tag, p)
            == Tier(tag, TermIf(P, p.input) + TermIf(C, p.output) + TermIf(CR, p.cacheRead) + TermIf(CC, p.cacheWrite)
                         + TermIf(AI, p.inputAudio) + TermIf(AO, p.outputAudio))
  {
    assert Terms(p, 1) == TermIf(P, p.input);
    assert Terms(p, 2) == Terms(p, 1) + TermIf(C, p.output);
    assert Terms(p, 3) == Terms(p, 2) + TermIf(CR, p.cacheRead);
    assert Terms(p, 4) == Terms(p, 3) + TermIf(CC, p.cacheWrite);
    assert Terms(p, 5) == Terms(p, 4) + TermIf(AI, p.inputAudio);
    assert Terms(p, 6) == Terms(p, 5) + TermIf(AO, p.outputAudio);
  }

  lemma ExactWrittenOut(p: Price, u: Usage)
    ensures ExactSum(p, u, |VARIABLES|)
            == Times(u.p, p.input) + Times(u.c, p.output) + Times(u.cr, p.cacheRead)
               + Times(u.cc, p.cacheWrite) + Times(u.ai, p.inputAudio) + Times(u.ao, p.outputAudio)
  {
    assert Exact(p, P, u) == Times(u.p, p.input) && Exact(p, C, u) == Times(u.c, p.output);
    assert Exact(p, CR, u) == Times(u.cr, p.cacheRead) && Exact(p, CC, u) == Times(u.cc, p.cacheWrite);
    assert Exact(p, AI, u) == Times(u.ai, p.inputAudio) && Exact(p, AO, u) == Times(u.ao, p.outputAudio);
    SumOfSix(p, u);
  }

  lemma SumOfSix(p: Price, u: Usage)
    ensures ExactSum(p, u, |VARIABLES|)
            == Exact(p, P, u) + Exact(p, C, u) + Exact(p, CR, u) + Exact(p, CC, u) + Exact(p, AI, u) + Exact(p, AO, u)
    ensures TokenTotal(u, |VARIABLES|) == u.p + u.c + u.cr + u.cc + u.ai + u.ao
  {
    ExactStep(p, u, 1);
    ExactStep(p, u, 2);
    ExactStep(p, u, 3);
    ExactStep(p, u, 4);
    ExactStep(p, u, 5);
    ExactStep(p, u, 6);
  }

  lemma ExactStep(p: Price, u: Usage, n: nat)
    requires 0 < n <= |VARIABLES|
    ensures ExactSum(p, u, n) == ExactSum(p, u, n - 1) + Exact(p, VARIABLES[n - 1], u)
    ensures TokenTotal(u, n) == TokenTotal(u, n - 1) + Tokens(u, VARIABLES[n - 1])
  {
  }

  /** The charge of the compiled expression against the sum of price times tokens, absent prices being zero. */
  lemma ChargeWrittenOut(cost: Cost, len: real, u: Usage)
    requires Compile(cost).Some? && NonNegative(u)
    ensures var (tag, p) := Prescribed(cost, len);
            var (chosen, charge) := Eval(Compile(cost).value, len, u);
            var exact := Times(u.p, p.input) + Times(u.c, p.output) + Times(u.cr, p.cacheRead)
                         + Times(u.cc, p.cacheWrite) + Times(u.ai, p.inputAudio) + Times(u.ao, p.outputAudio);
            var total := u.p + u.c + u.cr + u.cc + u.ai + u.ao;
            && chosen == tag
            && (total > 0.0 ==> -(0.000000001 * total) < charge - exact < 0.000000001 * total)
            && (total == 0.0 ==> charge == exact)
  {
    CompiledMeaning(cost, len, u);
    ExactWrittenOut(Prescribed(cost, len).1, u);
    SumOfSix(Prescribed(cost, len).1, u);
  }

  /** With a valid over-200K price the table prescribes it beyond 200000 tokens and the base price up to there. */
  lemma LongContextPrice(cost: Cost, p: Price, len: real)
    ensures cost.over200K == Some(p) && ValidPrice(p) ==>
              Prescribed(cost, len) == if len <= 200000.0 then (Standard, cost.base) else (LongContext, p)
  {
  }

  /** Prices are valid when the input price is known and none of those known is negative. */
  lemma ValidWrittenOut(p: Price)
    ensures ValidPrice(p)
            <==> && p.input.Some? && p.input.value >= 0.0
                 && (p.output.Some? ==> p.output.value >= 0.0) && (p.cacheRead.Some? ==> p.cacheRead.value >= 0.0)
                 && (p.cacheWrite.Some? ==> p.cacheWrite.value >= 0.0)
                 && (p.inputAudio.Some? ==> p.inputAudio.value >= 0.0)
                 && (p.outputAudio.Some? ==> p.outputAudio.value >= 0.0)
  {
  }

  /** `t` is the context tier of an entry: of kind "context" up to case and spaces, with a positive size, rounded. */
  predicate TierOf(entry: CostTier, t: ContextTier) {
    && Lower(TrimSpace(entry.kind)) == "context" && entry.size.Some? && entry.size.value > 0.0
    && ValidPrice(entry.price)
    && t == ContextTier(Round(entry.size.value), entry.price)
  }

  lemma {:induction false} UsableMembers(tiers: seq<CostTier>, t: ContextTier)
    ensures t in UsableTiers(tiers) <==> exists k :: 0 <= k < |tiers| && TierOf(tiers[k], t)
  {
    if tiers != [] {
      var n := |tiers| - 1;
      UsableMembers(tiers[..n], t);
      assert t in UsableTiers(tiers) <==> t in UsableTiers(tiers[..n]) || TierOf(tiers[n], t);
      if k :| 0 <= k < |tiers| && TierOf(tiers[k], t) {
        assert k == n || TierOf(tiers[..n][k], t);
      }
    }
  }

  /** Without one, a context tier whose size is below the length and largest among these, or else the base price. */
  lemma ContextPrice(cost: Cost, len: real)
    requires cost.over200K.Some? ==> !ValidPrice(cost.over200K.value)
    ensures var (tag, p) := Prescribed(cost, len);
            if tag == Standard then
              p == cost.base && forall t :: t in UsableTiers(cost.tiers) ==> t.size as real >= len
            else
              exists t :: && t in UsableTiers(cost.tiers) && t.size as real < len
                          && tag == ContextOver(t.size) && p == t.price
                          && forall o :: o in UsableTiers(cost.tiers) && o.size as real < len ==> o.size <= t.size
  {
    var tiers := UsableTiers(cost.tiers);
    var k := ApplicableIs(tiers, len);
    if Applicable(tiers, len).Some? {
      assert tiers[k] in tiers;
    }
  }

  lemma {:induction false} LowerLetters(s: string)
    ensures |Lower(s)| == |s|
    ensures forall i :: 0 <= i < |s| ==>
              Lower(s)[i] as int == if 'A' <= s[i] <= 'Z' then s[i] as int + 32 else s[i] as int
  {
    if s != "" {
      LowerLetters(s[..|s| - 1]);
    }
  }
}
