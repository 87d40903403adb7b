/**
  The comparison of local prices with those of several upstream sources, and the pruning of its report.
 */
module PriceDifferences {
  import opened Numbers
  import opened PricingData
  import opened Text
  import opened Wrappers

  datatype Source = Source(name: string, data: Data)

  /** The marker written for a source that agrees with the local value. */
  const SAME := Str("same")

  /** One reported row: the local value, the answer of each source, and how far each source is trusted. */
  datatype Item = Item(current: Option<Value>, upstreams: map<string, Option<Value>>, confidence: map<string, bool>)

  /** Rows by model and field; a model without rows has no entry. */
  type Report = map<(string, Field), Item>

  predicate ValuesEqual(a: Value, b: Value) {
    if a.Float? && b.Float? then NearlyEqual(a.r, b.r) else a == b
  }

  predicate Tiered(data: Data, m: string) {
    At(data, BillingMode, m) == Some(TIERED)
  }

  /** Some side prices the model by an expression: then only expressions are compared. */
  predicate ExpressionOnly(local: Data, sources: seq<Source>, m: string) {
    Tiered(local, m) || exists k :: 0 <= k < |sources| && Tiered(sources[k].data, m)
  }

  predicate Eligible(exprOnly: bool, source: Source, m: string) {
    exprOnly ==> Tiered(source.data, m)
  }

  /** What is noted for one source: its value, the marker, or nothing. */
  function Cell(local: Option<Value>, up: Option<Value>): Option<Value> {
    if up.Some? then
      if local.Some? && ValuesEqual(local.value, up.value) then Some(SAME) else up
    else if local.None? then Some(SAME)
    else None
  }

  /** The difference flag raised by one source. */
  predicate Raises(local: Option<Value>, up: Option<Value>) {
    || (up.Some? && local.Some? && !ValuesEqual(local.value, up.value))
    || (local.None? && Cell(local, up).Some? && Cell(local, up).value != SAME)
  }

  /** A model ratio of 37.5 with a completion ratio of 1 marks a placeholder price. */
  predicate Trusted(source: Source, m: string) {
    var ratio, completion := At(source.data, ModelRatio, m), At(source.data, CompletionRatio, m);
    !(ratio.Some? && completion.Some? && ratio.value.Float? && completion.value.Float?
      && NearlyEqual(ratio.value.r, 37.5) && NearlyEqual(completion.value.r, 1.0))
  }

  // ---------------------------------------------------------------- the first pass

  /** A row under construction. */
  datatype Tally = Tally(
    upstreams: map<string, Option<Value>>,
    confidence: map<string, bool>,
    hasUpstream: bool,
    hasDifference: bool)

  function Noted(t: Tally, local: Option<Value>, source: Source, m: string, f: Field): Tally {
    var up := At(source.data, f, m);
    Tally(t.upstreams[source.name := Cell(local, up)], t.confidence[source.name := Trusted(source, m)],
          t.hasUpstream || up.Some?, t.hasDifference || Raises(local, up))
  }

  /** The row as filled by the first `n` sources, a later source of the same name replacing an earlier one. */
  function TallyOf(local: Data, sources: seq<Source>, exprOnly: bool, m: string, f: Field, n: nat): Tally
    requires n <= |sources|
  {
    if n == 0 then Tally(map[], map[], false, false)
    else
      var t := TallyOf(local, sources, exprOnly, m, f, n - 1);
      if Eligible(exprOnly, sources[n - 1], m) then Noted(t, At(local, f, m), sources[n - 1], m, f) else t
  }

  /** The complete row of one field of one model. */
  function RowOf(local: Data, sources: seq<Source>, m: string, f: Field): Tally {
    TallyOf(local, sources, ExpressionOnly(local, sources, m), m, f, |sources|)
  }

  predicate Included(local: Data, sources: seq<Source>, m: string, f: Field) {
    var row := RowOf(local, sources, m, f);
    && !(ExpressionOnly(local, sources, m) && Numeric(f))
    && if At(local, f, m).Some? then row.hasDifference else row.hasUpstream
  }

  function DraftItem(local: Data, sources: seq<Source>, m: string, f: Field): Item {
    var row := RowOf(local, sources, m, f);
    Item(At(local, f, m), row.upstreams, row.confidence)
  }

  function Models(local: Data, sources: seq<Source>, n: nat): set<string>
    requires n <= |sources|
  {
    if n == 0 then Names(local) else Models(local, sources, n - 1) + Names(sources[n - 1].data)
  }

  function Draft(local: Data, sources: seq<Source>): Report {
    map m, f | m in Models(local, sources, |sources|) && f in ALL_FIELDS && Included(local, sources, m, f)
      :: (m, f) := DraftItem(local, sources, m, f)
  }

  /** The body of the loop over the sources. */
  method NoteSource(t: Tally, local: Option<Value>, source: Source, m: string, f: Field) returns (row: Tally)
    ensures row == Noted(t, local, source, m, f)
  {
    row := t;
    var value := At(source.data, f, m);
    if value.Some? {
      row := row.(hasUpstream := true);
      if local.Some? && !ValuesEqual(local.value, value.value) {
        row := row.(hasDifference := true);
      } else if local.Some? && ValuesEqual(local.value, value.value) {
        value := Some(SAME);
      }
    }
    if value.None? && local.None? {
      value := Some(SAME);
    }
    if local.None? && value.Some? && value.value != SAME {
      row := row.(hasDifference := true);
    }
    row := row.(upstreams := row.upstreams[source.name := value],
                confidence := row.confidence[source.name := Trusted(source, m)]);
  }

  method DraftRow(local: Data, sources: seq<Source>, exprOnly: bool, m: string, f: Field) returns (r: Option<Item>)
    requires exprOnly == ExpressionOnly(local, sources, m)
    ensures r == if Included(local, sources, m, f) then Some(DraftItem(local, sources, m, f)) else None
  {
    if exprOnly && Numeric(f) {
      return None;
    }
    var localValue := At(local, f, m);
    var row := Tally(map[], map[], false, false);
    for i := 0 to |sources|
      invariant row == TallyOf(local, sources, exprOnly, m, f, i)
    {
      if !(exprOnly && !Tiered(sources[i].data, m)) {
        row := NoteSource(row, localValue, sources[i], m, f);
      }
    }
    var worthy := if localValue.Some? then row.hasDifference else row.hasUpstream;
    if worthy {
      r := Some(Item(localValue, row.upstreams, row.confidence));
    } else {
      r := None;
    }
  }

  method CollectModels(local: Data, sources: seq<Source>) returns (models: set<string>)
    ensures models == Models(local, sources, |sources|)
  {
    models := Names(local);
    for i := 0 to |sources|
      invariant models == Models(local, sources, i)
    {
      models := models + Names(sources[i].data);
    }
  }

  method DraftModel(local: Data, sources: seq<Source>, m: string) returns (rows: map<Field, Item>)
    ensures forall f :: f in rows <==> Included(local, sources, m, f)
    ensures forall f :: f in rows ==> rows[f] == DraftItem(local, sources, m, f)
  {
    rows := map[];
    var exprOnly := ExpressionOnly(local, sources, m);
    for i := 0 to |FIELDS|
      invariant forall f :: f in rows <==> f in FIELDS[..i] && Included(local, sources, m, f)
      invariant forall f :: f in rows ==> rows[f] == DraftItem(local, sources, m, f)
    {
      assert FIELDS[..i + 1] == FIELDS[..i] + [FIELDS[i]];
      var row := DraftRow(local, sources, exprOnly, m, FIELDS[i]);
      if row.Some? {
        rows := rows[FIELDS[i] := row.value];
      }
    }
    assert FIELDS[..|FIELDS|] == FIELDS;
    forall f: Field ensures f in FIELDS {
      FieldListed(f);
    }
  }

  method DraftReport(local: Data, sources: seq<Source>) returns (report: Report)
    ensures report == Draft(local, sources)
  {
    report := map[];
    var models := CollectModels(local, sources);
    var rest := models;
    while rest != {}
      invariant rest <= models
      invariant forall key :: key in report <==>
                              key.0 in models && key.0 !in rest && Included(local, sources, key.0, key.1)
      invariant forall key :: key in report ==> report[key] == DraftItem(local, sources, key.0, key.1)
      decreases |rest|
    {
      var m :| m in rest;
      rest := rest - {m};
      var rows := DraftModel(local, sources, m);
      var block := map f | f in rows :: (m, f) := rows[f];
      assert forall key :: key in block <==> key.0 == m && key.1 in rows;
      report := report + block;
    }
    SameReport(local, sources, report);
  }

  lemma SameReport(local: Data, sources: seq<Source>, report: Report)
    requires forall key :: key in report <==>
                           key.0 in Models(local, sources, |sources|) && Included(local, sources, key.0, key.1)
    requires forall key :: key in report ==> report[key] == DraftItem(local, sources, key.0, key.1)
    ensures report == Draft(local, sources)
  {
  }

  // ---------------------------------------------------------------- the pruning pass

  predicate Real(cell: Option<Value>) {
    cell.Some? && cell.value != SAME
  }

  /** The sources with a real difference in some row. */
  function Differing(report: Report): set<string> {
    set key, s | key in report && s in report[key].upstreams && Real(report[key].upstreams[s]) :: s
  }

  function Restrict(item: Item, differing: set<string>): Item {
    Item(item.current,
         map s | s in item.upstreams && s in differing :: item.upstreams[s],
         map s | s in item.confidence && s in differing :: item.confidence[s])
  }

  predicate Kept(item: Item) {
    exists s :: s in item.upstreams && item.upstreams[s] != Some(SAME)
  }

  function Pruned(report: Report, differing: set<string>): Report {
    map key | key in report && Kept(Restrict(report[key], differing)) :: Restrict(report[key], differing)
  }

  /** The first pruning loop: which sources differ somewhere. */
  method DifferingSources(report: Report) returns (differing: set<string>)
    ensures differing == Differing(report)
  {
    differing := {};
    var rest := report.Keys;
    while rest != {}
      invariant rest <= report.Keys
      invariant forall s :: s in differing <==>
                            exists key :: key in report.Keys - rest && s in report[key].upstreams
                                          && Real(report[key].upstreams[s])
      decreases |rest|
    {
      var key :| key in rest;
      rest := rest - {key};
      var cells := report[key].upstreams;
      differing := differing + set s | s in cells && Real(cells[s]);
    }
  }

  /** The second pruning loop. */
  method Prune(report: Report, differing: set<string>) returns (pruned: Report)
    ensures pruned == Pruned(report, differing)
  {
    pruned := report;
    var rest := report.Keys;
    while rest != {}
      invariant rest <= report.Keys
      invariant forall key :: key in pruned <==> key in rest || key in Pruned(report, differing)
      invariant forall key :: key in pruned ==>
                              pruned[key] == if key in rest then report[key] else Pruned(report, differing)[key]
      decreases |rest|
    {
      var key :| key in rest;
      rest := rest - {key};
      var item := Restrict(pruned[key], differing);
      if Kept(item) {
        pruned := pruned[key := item];
      } else {
        pruned := pruned - {key};
      }
    }
  }

  function EffectiveSources(sources: seq<Source>): seq<Source> {
    if sources == [] then []
    else
      var last := sources[|sources| - 1];
      EffectiveSources(sources[..|sources| - 1]) + [last.(data := Effective(last.data))]
  }

  /** The report on two sides already in effective form. */
  function Compared(local: Data, sources: seq<Source>): Report {
    var draft := Draft(local, sources);
    Pruned(draft, Differing(draft))
  }

  /** `buildDifferences` */
  method BuildDifferences(localData: Data, channels: seq<Source>) returns (differences: Report)
    ensures differences == Compared(Effective(localData), EffectiveSources(channels))
  {
    var local := EffectivePricingSyncData(localData);
    var sources: seq<Source> := [];
    for i := 0 to |channels|
      invariant sources == EffectiveSources(channels[..i])
    {
      assert channels[..i + 1][..i] == channels[..i];
      var data := EffectivePricingSyncData(channels[i].data);
      sources := sources + [channels[i].(data := data)];
    }
    assert channels[..|channels|] == channels;
    var draft := DraftReport(local, sources);
    var differing := DifferingSources(draft);
    differences := Prune(draft, differing);
  }

  // ---------------------------------------------------------------- what the report contains

  predicate DistinctNames(sources: seq<Source>) {
    forall i, j :: 0 <= i < j < |sources| ==> sources[i].name != sources[j].name
  }

  /** A source value that the local side lacks or contradicts. */
  predicate Differs(local: Option<Value>, up: Option<Value>) {
    up.Some? && (local.None? || !ValuesEqual(local.value, up.value))
  }

  /** A difference that the report can show: one not spelled like the marker. */
  predicate Shows(local: Option<Value>, up: Option<Value>) {
    Differs(local, up) && up.value != SAME
  }

  /** Source `k` is compared on field `f` of model `m`. */
  predicate Compares(local: Data, sources: seq<Source>, k: nat, m: string, f: Field) {
    && k < |sources|
    && !(ExpressionOnly(local, sources, m) && Numeric(f))
    && Eligible(ExpressionOnly(local, sources, m), sources[k], m)
  }

  predicate DiffersAt(local: Data, sources: seq<Source>, k: nat, m: string, f: Field) {
    Compares(local, sources, k, m, f) && Differs(At(local, f, m), At(sources[k].data, f, m))
  }

  predicate ShowsAt(local: Data, sources: seq<Source>, k: nat, m: string, f: Field) {
    Compares(local, sources, k, m, f) && Shows(At(local, f, m), At(sources[k].data, f, m))
  }

  /** Some source compared on the row has a value that the local side lacks or contradicts. */
  ghost predicate Different(local: Data, sources: seq<Source>, m: string, f: Field) {
    exists k: nat :: DiffersAt(local, sources, k, m, f)
  }

  ghost predicate Shown(local: Data, sources: seq<Source>, m: string, f: Field) {
    exists k: nat :: ShowsAt(local, sources, k, m, f)
  }

  /** The expression of the model differs, but every differing source spells its expression like the marker. */
  ghost predicate Masked(local: Data, sources: seq<Source>, m: string) {
    && Different(local, sources, m, BillingExpr)
    && forall k: nat :: DiffersAt(local, sources, k, m, BillingExpr) ==>
        At(sources[k].data, BillingExpr, m) == Some(SAME)
  }

  ghost predicate ShowsSomewhere(local: Data, sources: seq<Source>, k: nat) {
    exists m, f :: ShowsAt(local, sources, k, m, f)
  }

  /** With distinct names every eligible source has its own cell. */
  lemma {:induction false} TallyHas(local: Data, sources: seq<Source>, exprOnly: bool, m: string, f: Field, n: nat,
                                    k: nat)
    requires DistinctNames(sources) && k < n <= |sources| && Eligible(exprOnly, sources[k], m)
    ensures var t, name := TallyOf(local, sources, exprOnly, m, f, n), sources[k].name;
            && name in t.upstreams && name in t.confidence
            && t.upstreams[name] == Cell(At(local, f, m), At(sources[k].data, f, m))
            && t.confidence[name] == Trusted(sources[k], m)
  {
    if k < n - 1 {
      TallyHas(local, sources, exprOnly, m, f, n - 1, k);
      assert sources[n - 1].name != sources[k].name;
    }
  }

  lemma {:induction false} TallyOnly(local: Data, sources: seq<Source>, exprOnly: bool, m: string, f: Field,
                                     n: nat, s: string)
    returns (k: nat)
    requires n <= |sources|
    requires var t := TallyOf(local, sources, exprOnly, m, f, n); s in t.upstreams || s in t.confidence
    ensures k < n && sources[k].name == s && Eligible(exprOnly, sources[k], m)
  {
    if Eligible(exprOnly, sources[n - 1], m) && sources[n - 1].name == s {
      k := n - 1;
    } else {
      k := TallyOnly(local, sources, exprOnly, m, f, n - 1, s);
    }
  }

  /** The cell of source `k` in a complete row. */
  lemma RowCell(local: Data, sources: seq<Source>, exprOnly: bool, m: string, f: Field, k: nat)
    requires DistinctNames(sources) && k < |sources|
    ensures var row, name := TallyOf(local, sources, exprOnly, m, f, |sources|), sources[k].name;
            && (name in row.upstreams <==> Eligible(exprOnly, sources[k], m))
            && (name in row.confidence <==> Eligible(exprOnly, sources[k], m))
            && (name in row.upstreams ==>
                  && row.upstreams[name] == Cell(At(local, f, m), At(sources[k].data, f, m))
                  && row.confidence[name] == Trusted(sources[k], m))
  {
    var row, name := TallyOf(local, sources, exprOnly, m, f, |sources|), sources[k].name;
    if Eligible(exprOnly, sources[k], m) {
      TallyHas(local, sources, exprOnly, m, f, |sources|, k);
    } else if name in row.upstreams || name in row.confidence {
      var j := TallyOnly(local, sources, exprOnly, m, f, |sources|, name);
    }
  }

  /** The cell of source `k` in a drafted row. */
  lemma DraftCell(local: Data, sources: seq<Source>, m: string, f: Field, k: nat)
    requires DistinctNames(sources) && k < |sources|
    ensures (m, f) in Draft(local, sources) ==>
              var item, name := Draft(local, sources)[(m, f)], sources[k].name;
              && item.current == At(local, f, m)
              && (name in item.upstreams <==> Compares(local, sources, k, m, f))
              && (name in item.confidence <==> Compares(local, sources, k, m, f))
              && (name in item.upstreams ==>
                    && item.upstreams[name] == Cell(At(local, f, m), At(sources[k].data, f, m))
                    && item.confidence[name] == Trusted(sources[k], m))
  {
    if (m, f) in Draft(local, sources) {
      assert Draft(local, sources)[(m, f)] == DraftItem(local, sources, m, f) && Included(local, sources, m, f);
      RowCell(local, sources, ExpressionOnly(local, sources, m), m, f, k);
    }
  }

  lemma {:induction false} TallyUpstream(local: Data, sources: seq<Source>, exprOnly: bool, m: string, f: Field, n: nat)
    requires n <= |sources|
    ensures TallyOf(local, sources, exprOnly, m, f, n).hasUpstream <==>
            exists k :: 0 <= k < n && Eligible(exprOnly, sources[k], m) && At(sources[k].data, f, m).Some?
  {
    if n > 0 {
      TallyUpstream(local, sources, exprOnly, m, f, n - 1);
    }
  }

  lemma {:induction false} TallyDifference(local: Data, sources: seq<Source>, exprOnly: bool, m: string, f: Field,
                                           n: nat)
    requires n <= |sources|
    ensures TallyOf(local, sources, exprOnly, m, f, n).hasDifference <==>
            exists k :: 0 <= k < n && Eligible(exprOnly, sources[k], m)
                && Raises(At(local, f, m), At(sources[k].data, f, m))
  {
    if n > 0 {
      TallyDifference(local, sources, exprOnly, m, f, n - 1);
    }
  }

  lemma TallyFlags(local: Data, sources: seq<Source>, exprOnly: bool, m: string, f: Field, n: nat)
    requires n <= |sources|
    ensures var t := TallyOf(local, sources, exprOnly, m, f, n);
            && (t.hasUpstream <==>
                exists k :: 0 <= k < n && Eligible(exprOnly, sources[k], m) && At(sources[k].data, f, m).Some?)
            && (t.hasDifference <==>
                exists k :: 0 <= k < n && Eligible(exprOnly, sources[k], m)
                    && Raises(At(local, f, m), At(sources[k].data, f, m)))
  {
    TallyUpstream(local, sources, exprOnly, m, f, n);
    TallyDifference(local, sources, exprOnly, m, f, n);
  }

  lemma {:induction false} ModelKnown(local: Data, sources: seq<Source>, n: nat, k: nat, m: string, f: Field)
    requires k < n <= |sources| && At(sources[k].data, f, m).Some?
    ensures m in Models(local, sources, n)
  {
    if k < n - 1 {
      ModelKnown(local, sources, n - 1, k, m, f);
    }
  }

  lemma DifferentIncluded(local: Data, sources: seq<Source>, m: string, f: Field, k: nat)
    requires DiffersAt(local, sources, k, m, f)
    ensures Included(local, sources, m, f)
  {
    TallyFlags(local, sources, ExpressionOnly(local, sources, m), m, f, |sources|);
  }

  lemma IncludedDifferent(local: Data, sources: seq<Source>, m: string, f: Field)
    requires Included(local, sources, m, f)
    ensures Different(local, sources, m, f)
  {
    var exprOnly := ExpressionOnly(local, sources, m);
    TallyFlags(local, sources, exprOnly, m, f, |sources|);
    var j: nat :| j < |sources| && Eligible(exprOnly, sources[j], m)
                  && if At(local, f, m).Some? then Raises(At(local, f, m), At(sources[j].data, f, m))
                     else At(sources[j].data, f, m).Some?;
    assert DiffersAt(local, sources, j, m, f);
  }

  /** The rows drafted are exactly those with a difference. */
  lemma DraftedExactly(local: Data, sources: seq<Source>, m: string, f: Field)
    ensures (m, f) in Draft(local, sources) <==> Different(local, sources, m, f)
  {
    assert (m, f) in Draft(local, sources)
           <==> m in Models(local, sources, |sources|) && Included(local, sources, m, f);
    if k: nat :| DiffersAt(local, sources, k, m, f) {
      ModelKnown(local, sources, |sources|, k, m, f);
      DifferentIncluded(local, sources, m, f, k);
    } else if Included(local, sources, m, f) {
      IncludedDifferent(local, sources, m, f);
    }
  }

  /** A difference that can be shown is drafted, with its real cell. */
  lemma ShownDrafted(local: Data, sources: seq<Source>, k: nat, m: string, f: Field)
    requires DistinctNames(sources) && ShowsAt(local, sources, k, m, f)
    ensures var draft := Draft(local, sources);
            && (m, f) in draft
            && sources[k].name in draft[(m, f)].upstreams
            && Real(draft[(m, f)].upstreams[sources[k].name])
  {
    assert DiffersAt(local, sources, k, m, f);
    DraftedExactly(local, sources, m, f);
    DraftCell(local, sources, m, f, k);
  }

  /** The sources that survive pruning are exactly those with a difference that can be shown somewhere. */
  lemma DifferingExactly(local: Data, sources: seq<Source>, k: nat)
    requires DistinctNames(sources) && k < |sources|
    ensures sources[k].name in Differing(Draft(local, sources)) <==> ShowsSomewhere(local, sources, k)
  {
    var draft := Draft(local, sources);
    if m, f :| ShowsAt(local, sources, k, m, f) {
      ShownDrafted(local, sources, k, m, f);
    }
    if sources[k].name in Differing(draft) {
      var key :| key in draft && sources[k].name in draft[key].upstreams && Real(draft[key].upstreams[sources[k].name]);
      var (m, f) := key;
      DraftCell(local, sources, m, f, k);
      assert ShowsAt(local, sources, k, m, f);
    }
  }

  ghost predicate Canonical(data: Data) {
    forall m :: CanonicalAt(data, m)
  }

  ghost predicate AllCanonical(local: Data, sources: seq<Source>) {
    Canonical(local) && forall k :: 0 <= k < |sources| ==> Canonical(sources[k].data)
  }

  /** In a canonical table only an active expression can be spelled like the marker, and a tiered model has one. */
  lemma MarkerIsExpression(data: Data, m: string, f: Field)
    requires Canonical(data)
    ensures At(data, f, m) == Some(SAME) ==> f == BillingExpr && Tiered(data, m)
    ensures Tiered(data, m) ==> At(data, BillingExpr, m).Some?
  {
    assert CanonicalAt(data, m);
  }

  /** A drafted row with nothing to show holds nothing but the marker. */
  lemma MaskedRowIsAllSame(local: Data, sources: seq<Source>, m: string, f: Field, k: nat)
    requires DistinctNames(sources) && AllCanonical(local, sources)
    requires Different(local, sources, m, f) && !Shown(local, sources, m, f)
    requires Compares(local, sources, k, m, f)
    ensures Cell(At(local, f, m), At(sources[k].data, f, m)) == Some(SAME)
  {
    var j: nat :| DiffersAt(local, sources, j, m, f);
    assert !ShowsAt(local, sources, j, m, f) && !ShowsAt(local, sources, k, m, f);
    MarkerIsExpression(sources[j].data, m, f);
    MarkerIsExpression(sources[k].data, m, f);
  }

  /** After pruning a row is left exactly when it has something to show. */
  lemma PrunedExactly(local: Data, sources: seq<Source>, m: string, f: Field)
    requires DistinctNames(sources) && AllCanonical(local, sources)
    ensures (m, f) in Compared(local, sources) <==> Shown(local, sources, m, f)
  {
    var draft := Draft(local, sources);
    var differing := Differing(draft);
    if k: nat :| ShowsAt(local, sources, k, m, f) {
      ShownDrafted(local, sources, k, m, f);
      var item := Restrict(draft[(m, f)], differing);
      assert sources[k].name in item.upstreams;
      assert Kept(item);
    } else if (m, f) in draft {
      DraftedExactly(local, sources, m, f);
      var item := Restrict(draft[(m, f)], differing);
      forall s | s in item.upstreams ensures item.upstreams[s] == Some(SAME) {
        var k := TallyOnly(local, sources, ExpressionOnly(local, sources, m), m, f, |sources|, s);
        DraftCell(local, sources, m, f, k);
        MaskedRowIsAllSame(local, sources, m, f, k);
      }
    }
  }

  /** What differs and cannot be shown is a masked expression. */
  lemma HiddenIsMasked(local: Data, sources: seq<Source>, m: string, f: Field)
    requires AllCanonical(local, sources)
    ensures Different(local, sources, m, f) && !Shown(local, sources, m, f)
            <==> f == BillingExpr && Masked(local, sources, m)
  {
    if Different(local, sources, m, f) && !Shown(local, sources, m, f) {
      forall k: nat | DiffersAt(local, sources, k, m, f)
        ensures f == BillingExpr && At(sources[k].data, f, m) == Some(SAME)
      {
        assert !ShowsAt(local, sources, k, m, f);
        MarkerIsExpression(sources[k].data, m, f);
      }
      var k: nat :| DiffersAt(local, sources, k, m, f);
    } else if f == BillingExpr && Masked(local, sources, m) {
      forall k: nat ensures !ShowsAt(local, sources, k, m, f) {
        assert DiffersAt(local, sources, k, m, f) ==> At(sources[k].data, f, m) == Some(SAME);
      }
    }
  }

  /**
    A row is reported exactly when it differs, except the expression of a model whose differing sources all
    spell theirs like the marker: that row differs and is not reported.
   */
  lemma ReportedExactly(local: Data, sources: seq<Source>, m: string, f: Field)
    requires DistinctNames(sources) && AllCanonical(local, sources)
    ensures (m, f) in Compared(local, sources)
            <==> Different(local, sources, m, f) && !(f == BillingExpr && Masked(local, sources, m))
  {
    PrunedExactly(local, sources, m, f);
    HiddenIsMasked(local, sources, m, f);
    if k: nat :| ShowsAt(local, sources, k, m, f) {
      assert DiffersAt(local, sources, k, m, f);
    }
  }

  ghost predicate Complete(local: Data, sources: seq<Source>) {
    forall m, f :: (m, f) in Compared(local, sources) <==> Different(local, sources, m, f)
  }

  ghost predicate NoneMasked(local: Data, sources: seq<Source>) {
    forall m :: !Masked(local, sources, m)
  }

  /** The report lists exactly the differences if and only if no model is masked. */
  lemma CompleteExactly(local: Data, sources: seq<Source>)
    requires DistinctNames(sources) && AllCanonical(local, sources)
    ensures Complete(local, sources) <==> NoneMasked(local, sources)
  {
    forall m, f
      ensures (m, f) in Compared(local, sources)
              <==> Different(local, sources, m, f) && !(f == BillingExpr && Masked(local, sources, m))
    {
      ReportedExactly(local, sources, m, f);
    }
    if m :| Masked(local, sources, m) {
      assert (m, BillingExpr) !in Compared(local, sources) && Different(local, sources, m, BillingExpr);
    }
  }

  /** What a reported row says: the sources compared that differ somewhere, each with its own answer. */
  lemma ReportedContents(local: Data, sources: seq<Source>, m: string, f: Field, k: nat)
    requires DistinctNames(sources) && k < |sources|
    ensures (m, f) in Compared(local, sources) ==>
              var item := Compared(local, sources)[(m, f)];
              var name := sources[k].name;
              && item.current == At(local, f, m)
              && (name in item.upstreams <==> Compares(local, sources, k, m, f) && ShowsSomewhere(local, sources, k))
              && (name in item.confidence <==> name in item.upstreams)
              && (name in item.upstreams ==>
                    && item.upstreams[name] == Cell(At(local, f, m), At(sources[k].data, f, m))
                    && item.confidence[name] == Trusted(sources[k], m))
  {
    DraftCell(local, sources, m, f, k);
    DifferingExactly(local, sources, k);
  }

  /** Pruning removes sources but no row, exactly when no model is masked. */
  lemma PruningKeepsRows(local: Data, sources: seq<Source>)
    requires DistinctNames(sources) && AllCanonical(local, sources)
    ensures Compared(local, sources).Keys == Draft(local, sources).Keys <==> NoneMasked(local, sources)
  {
    CompleteExactly(local, sources);
    var reported, drafted := Compared(local, sources).Keys, Draft(local, sources).Keys;
    forall m, f ensures (m, f) in drafted <==> Different(local, sources, m, f) {
      DraftedExactly(local, sources, m, f);
    }
    SameRows(local, sources, reported, drafted);
  }

  lemma SameRows(local: Data, sources: seq<Source>, reported: set<(string, Field)>, drafted: set<(string, Field)>)
    requires forall m, f :: (m, f) in drafted <==> Different(local, sources, m, f)
    ensures reported == drafted <==> forall m, f :: (m, f) in reported <==> Different(local, sources, m, f)
  {
    if forall m, f :: (m, f) in reported <==> Different(local, sources, m, f) {
      forall key ensures key in reported <==> key in drafted {
        var (m, f) := key;
      }
    }
  }

  /** A table that prices one model by one expression. */
  function Tier(m: string, expression: string): Data {
    map[BillingMode := map[m := TIERED], BillingExpr := map[m := Str(expression)]]
  }

  lemma TierCanonical(m: string, expression: string)
    requires expression != "" && Trimmed(expression)
    ensures Canonical(Tier(m, expression))
  {
    var data := Tier(m, expression);
    forall name ensures CanonicalAt(data, name) {
      if name == m {
        assert TieredShape(data, m);
      } else {
        assert Absent(data, name);
      }
    }
  }

  /** One source whose expression is `same` against a local one that is not: drafted, then pruned away. */
  lemma SameExpressionVanishes(m: string, expression: string, source: string)
    requires expression != "" && Trimmed(expression) && expression != "same"
    ensures var local, sources := Tier(m, expression), [Source(source, Tier(m, "same"))];
            (m, BillingExpr) in Draft(local, sources) && (m, BillingExpr) !in Compared(local, sources)
  {
    var local, sources := Tier(m, expression), [Source(source, Tier(m, "same"))];
    TierCanonical(m, expression);
    TierCanonical(m, "same");
    assert At(sources[0].data, BillingExpr, m) == Some(SAME) && Tiered(sources[0].data, m);
    assert DiffersAt(local, sources, 0, m, BillingExpr);
    assert Masked(local, sources, m);
    DraftedExactly(local, sources, m, BillingExpr);
    ReportedExactly(local, sources, m, BillingExpr);
  }

  // ---------------------------------------------------------------- from the raw settings

  lemma {:induction false} EffectiveSourceAt(channels: seq<Source>, k: nat)
    requires k < |channels|
    ensures |EffectiveSources(channels)| == |channels|
    ensures EffectiveSources(channels)[k] == channels[k].(data := Effective(channels[k].data))
  {
    var n := |channels| - 1;
    if k < n {
      EffectiveSourceAt(channels[..n], k);
    } else if n > 0 {
      EffectiveSourceAt(channels[..n], 0);
    }
  }

  lemma EffectiveSidesCanonical(localData: Data, channels: seq<Source>)
    requires DistinctNames(channels)
    ensures var sources := EffectiveSources(channels);
            && |sources| == |channels|
            && DistinctNames(sources)
            && AllCanonical(Effective(localData), sources)
  {
    var sources := EffectiveSources(channels);
    forall m ensures CanonicalAt(Effective(localData), m) {
      EffectiveIsCanonical(localData, m);
    }
    if channels != [] {
      EffectiveSourceAt(channels, 0);
    }
    forall k | 0 <= k < |channels|
      ensures sources[k].name == channels[k].name && Canonical(sources[k].data)
    {
      EffectiveSourceAt(channels, k);
      forall m ensures CanonicalAt(sources[k].data, m) {
        EffectiveIsCanonical(channels[k].data, m);
      }
    }
  }

  /**
    The report built from raw settings lists exactly the differences between the effective prices, if and
    only if no model is masked.
   */
  lemma DifferencesAreExact(localData: Data, channels: seq<Source>)
    requires DistinctNames(channels)
    ensures var local, sources := Effective(localData), EffectiveSources(channels);
            Complete(local, sources) <==> NoneMasked(local, sources)
  {
    EffectiveSidesCanonical(localData, channels);
    CompleteExactly(Effective(localData), EffectiveSources(channels));
  }

  // ---------------------------------------------------------------- written out

  /** Two numbers differ when they are at least a billionth apart, any other two values when they are unequal. */
  lemma DiffersWrittenOut(x: Value, y: Value)
    ensures Differs(Some(x), Some(y))
            <==> if x.Float? && y.Float? then x.r - y.r >= 0.000000001 || y.r - x.r >= 0.000000001 else x != y
    ensures Differs(None, Some(y)) && !Differs(Some(x), None) && !Differs(None, None)
  {
  }

  /** A source is distrusted for a model exactly when its ratios are, to a billionth, 37.5 and 1. */
  lemma TrustedWrittenOut(source: Source, m: string)
    ensures !Trusted(source, m)
            <==> exists r, c: real :: && At(source.data, ModelRatio, m) == Some(Float(r))
                                      && 37.499999999 < r < 37.500000001
                                      && At(source.data, CompletionRatio, m) == Some(Float(c))
                                      && 0.999999999 < c < 1.000000001
  {
    var ratio, completion := At(source.data, ModelRatio, m), At(source.data, CompletionRatio, m);
    if !Trusted(source, m) {
      assert ratio == Some(Float(ratio.value.r)) && completion == Some(Float(completion.value.r));
    }
  }

  /** What one source reports for a row of a model, with everything it is compared with given. */
  lemma OneSource(local: Data, sources: seq<Source>, m: string, f: Field)
    requires |sources| == 1 && AllCanonical(local, sources)
    requires Compares(local, sources, 0, m, f)
    ensures (m, f) in Compared(local, sources)
            <==> Differs(At(local, f, m), At(sources[0].data, f, m)) && At(sources[0].data, f, m) != Some(Str("same"))
  {
    PrunedExactly(local, sources, m, f);
    if k: nat :| ShowsAt(local, sources, k, m, f) {
      assert k == 0;
    }
    if Shows(At(local, f, m), At(sources[0].data, f, m)) {
      assert ShowsAt(local, sources, 0, m, f);
    }
  }

  lemma OneEffective(channels: seq<Source>)
    requires |channels| == 1
    ensures EffectiveSources(channels) == [channels[0].(data := Effective(channels[0].data))]
  {
    EffectiveSourceAt(channels, 0);
  }

  lemma TokenSide(data: Data, m: string, ratio: real)
    requires TokenPriced(data, m, ratio) && ratio >= 0.0
    ensures At(Effective(data), ModelRatio, m) == Some(Float(ratio)) && !Tiered(Effective(data), m)
  {
    RatioModel(data, m);
  }

  lemma RatioRow(local: Data, sources: seq<Source>, m: string, a: real, b: real)
    requires |sources| == 1 && AllCanonical(local, sources) && !Tiered(local, m) && !Tiered(sources[0].data, m)
    requires At(local, ModelRatio, m) == Some(Float(a)) && At(sources[0].data, ModelRatio, m) == Some(Float(b))
    ensures (m, ModelRatio) in Compared(local, sources) <==> a - b >= 0.000000001 || b - a >= 0.000000001
  {
    OneSource(local, sources, m, ModelRatio);
    DiffersWrittenOut(Float(a), Float(b));
  }

  /** For a model priced by tokens on both sides, the ratio row is reported when they are a billionth apart. */
  lemma RatioRowReported(localData: Data, channels: seq<Source>, m: string, a: real, b: real)
    requires |channels| == 1 && a >= 0.0 && b >= 0.0
    requires TokenPriced(localData, m, a) && TokenPriced(channels[0].data, m, b)
    ensures (m, ModelRatio) in Compared(Effective(localData), EffectiveSources(channels))
            <==> a - b >= 0.000000001 || b - a >= 0.000000001
  {
    EffectiveSidesCanonical(localData, channels);
    OneEffective(channels);
    TokenSide(localData, m, a);
    TokenSide(channels[0].data, m, b);
    RatioRow(Effective(localData), EffectiveSources(channels), m, a, b);
  }

  predicate TokenPriced(data: Data, m: string, ratio: real) {
    && At(data, BillingMode, m) != Some(Str("tiered_expr"))
    && At(data, ModelPrice, m) == None
    && At(data, ModelRatio, m) == Some(Float(ratio))
  }

  lemma ExpressionSide(data: Data, m: string, expression: string)
    requires ExpressionPriced(data, m, expression) && TrimSpace(expression) != ""
    ensures At(Effective(data), BillingExpr, m) == Some(Str(TrimSpace(expression))) && Tiered(Effective(data), m)
  {
    TieredModel(data, m, expression);
  }

  lemma ExpressionRow(local: Data, sources: seq<Source>, m: string, p: string, q: string)
    requires |sources| == 1 && AllCanonical(local, sources) && Tiered(local, m) && Tiered(sources[0].data, m)
    requires At(local, BillingExpr, m) == Some(Str(p)) && At(sources[0].data, BillingExpr, m) == Some(Str(q))
    ensures (m, BillingExpr) in Compared(local, sources) <==> p != q && q != "same"
  {
    OneSource(local, sources, m, BillingExpr);
    DiffersWrittenOut(Str(p), Str(q));
  }

  /** For a model with an expression on both sides, the expression row when the trimmed texts differ. */
  lemma ExpressionRowReported(localData: Data, channels: seq<Source>, m: string, p: string, q: string)
    requires |channels| == 1 && TrimSpace(p) != "" && TrimSpace(q) != ""
    requires ExpressionPriced(localData, m, p) && ExpressionPriced(channels[0].data, m, q)
    ensures (m, BillingExpr) in Compared(Effective(localData), EffectiveSources(channels))
            <==> TrimSpace(p) != TrimSpace(q) && TrimSpace(q) != "same"
  {
    EffectiveSidesCanonical(localData, channels);
    OneEffective(channels);
    ExpressionSide(localData, m, p);
    ExpressionSide(channels[0].data, m, q);
    ExpressionRow(Effective(localData), EffectiveSources(channels), m, TrimSpace(p), TrimSpace(q));
  }

  predicate ExpressionPriced(data: Data, m: string, expression: string) {
    At(data, BillingMode, m) == Some(Str("tiered_expr")) && At(data, BillingExpr, m) == Some(Str(expression))
  }

  /** Once any side has an expression for a model, its numbers are not reported. */
  lemma ExpressionHidesNumbers(local: Data, sources: seq<Source>, m: string, f: Field)
    requires f != BillingMode && f != BillingExpr
    requires || At(local, BillingMode, m) == Some(Str("tiered_expr"))
             || exists k :: 0 <= k < |sources| && At(sources[k].data, BillingMode, m) == Some(Str("tiered_expr"))
    ensures (m, f) !in Compared(local, sources)
  {
    DraftedExactly(local, sources, m, f);
    if k :| 0 <= k < |sources| && At(sources[k].data, BillingMode, m) == Some(Str("tiered_expr")) {
      assert Tiered(sources[k].data, m);
    }
  }

  /** What a cell holds: the source's value where it differs, the marker where there is nothing to tell, or nothing. */
  lemma CellWrittenOut(local: Option<Value>, up: Option<Value>)
    ensures Differs(local, up) ==> Cell(local, up) == up
    ensures !Differs(local, up) && (up.Some? || local.None?) ==> Cell(local, up) == Some(Str("same"))
    ensures up.None? && local.Some? ==> Cell(local, up) == None
  {
  }
}
