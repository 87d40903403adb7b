/**
  Pricing settings exchanged between instances: one map per field from model name to value, and the
  normalisation that keeps only what the billing engine would act on.
 */
module PricingData {
  import opened Text
  import opened Wrappers

  datatype Field =
    | ModelRatio | CompletionRatio | CacheRatio | CreateCacheRatio | ImageRatio | AudioRatio
    | AudioCompletionRatio | ModelPrice | BillingMode | BillingExpr

  const FIELDS: seq<Field> := [ModelRatio, CompletionRatio, CacheRatio, CreateCacheRatio, ImageRatio, AudioRatio,
                               AudioCompletionRatio, ModelPrice, BillingMode, BillingExpr]

  predicate Numeric(f: Field) {
    f != BillingMode && f != BillingExpr
  }

  const NUMERIC_FIELDS: set<Field> := set f: Field | Numeric(f)
  const ALL_FIELDS: set<Field> := set f: Field | true

  lemma FieldListed(f: Field)
    ensures f in FIELDS
  {
    match f
    case ModelRatio => assert FIELDS[0] == f;
    case CompletionRatio => assert FIELDS[1] == f;
    case CacheRatio => assert FIELDS[2] == f;
    case CreateCacheRatio => assert FIELDS[3] == f;
    case ImageRatio => assert FIELDS[4] == f;
    case AudioRatio => assert FIELDS[5] == f;
    case AudioCompletionRatio => assert FIELDS[6] == f;
    case ModelPrice => assert FIELDS[7] == f;
    case BillingMode => assert FIELDS[8] == f;
    case BillingExpr => assert FIELDS[9] == f;
  }

  /** A decoded JSON value: finite and other floats, integers, strings, and everything else. */
  datatype Value = Float(r: real) | NonFinite | Int(n: int) | Str(s: string) | Opaque(id: nat)

  const RATIO := Str("ratio")
  const TIERED := Str("tiered_expr")

  type Entries = map<string, Value>
  type Data = map<Field, Entries>

  /** `valueMap(data[field])`, a missing field being empty. */
  function EntriesOf(data: Data, f: Field): Entries {
    if f in data then data[f] else map[]
  }

  /** The value of one field of one model. */
  function At(data: Data, f: Field, name: string): Option<Value> {
    if name in EntriesOf(data, f) then Some(EntriesOf(data, f)[name]) else None
  }

  /** `normalizeSyncValue` */
  function NormalizeValue(f: Field, v: Value): Value {
    if Numeric(f) && v.Int? then Float(v.n as real) else v
  }

  /** What the first pass keeps of a value: numeric fields hold finite non-negative numbers only. */
  function Clean(f: Field, v: Option<Value>): Option<Value> {
    if v.None? then None
    else
      var w := NormalizeValue(f, v.value);
      if Numeric(f) && !(w.Float? && w.r >= 0.0) then None else Some(w)
  }

  /** The trimmed expression of a model, empty when there is none. */
  function Expression(expr: Option<Value>): string {
    if expr.Some? && expr.value.Str? then TrimSpace(expr.value.s) else ""
  }

  /**
    The effective value of field `f` of a model whose cleaned mode, expression, price and ratio are given:
    an active expression stands alone, a fixed price stands alone, and otherwise there must be a ratio.
   */
  function Settle(f: Field, own: Option<Value>, mode: Option<Value>, expr: Option<Value>,
                  price: Option<Value>, ratio: Option<Value>): Option<Value> {
    if mode == Some(TIERED) then
      if Expression(expr) == "" || Numeric(f) then None
      else if f == BillingExpr then Some(Str(Expression(expr)))
      else Some(TIERED)
    else if price.None? && ratio.None? then None
    else if f == BillingExpr then None
    else if f == BillingMode then Some(RATIO)
    else if price.Some? && f != ModelPrice then None
    else own
  }

  function EffectiveAt(data: Data, f: Field, name: string): Option<Value> {
    Settle(f, Clean(f, At(data, f, name)),
           Clean(BillingMode, At(data, BillingMode, name)), Clean(BillingExpr, At(data, BillingExpr, name)),
           Clean(ModelPrice, At(data, ModelPrice, name)), Clean(ModelRatio, At(data, ModelRatio, name)))
  }

  /** The models a table mentions. */
  function Names(data: Data): set<string> {
    set f, name | f in data && name in data[f] :: name
  }

  /** The effective form of a table, field by field and model by model. */
  function Effective(data: Data): Data {
    map f | f in ALL_FIELDS ::
      map name | name in Names(data) && EffectiveAt(data, f, name).Some? :: EffectiveAt(data, f, name).value
  }

  lemma EffectiveEntry(data: Data, f: Field, name: string)
    ensures At(Effective(data), f, name) == EffectiveAt(data, f, name)
  {
    if name !in Names(data) {
      assert At(data, f, name).None? && At(data, BillingMode, name).None?;
      assert At(data, ModelPrice, name).None? && At(data, ModelRatio, name).None?;
    }
  }

  // ---------------------------------------------------------------- the normalising passes

  /** The first loop's body: the cleaned entries of one field. */
  method CleanEntries(f: Field, raw: Entries) returns (entries: Entries)
    ensures forall name :: name in entries <==> name in raw && Clean(f, Some(raw[name])).Some?
    ensures forall name :: name in entries ==> entries[name] == Clean(f, Some(raw[name])).value
  {
    entries := map[];
    var rest := raw.Keys;
    while rest != {}
      invariant rest <= raw.Keys
      invariant forall name :: name in entries <==> name in raw.Keys - rest && Clean(f, Some(raw[name])).Some?
      invariant forall name :: name in entries ==> entries[name] == Clean(f, Some(raw[name])).value
      decreases |rest|
    {
      var name :| name in rest;
      rest := rest - {name};
      var value := NormalizeValue(f, raw[name]);
      if !Numeric(f) || (value.Float? && value.r >= 0.0) {
        entries := entries[name := value];
      }
    }
  }

  /** Delete one model from the maps of the given fields. */
  function DropName(data: Data, fields: set<Field>, name: string): (r: Data)
    ensures r.Keys == data.Keys
    ensures forall f, other {:trigger At(r, f, other)} ::
              At(r, f, other) == if f in fields && other == name then None else At(data, f, other)
  {
    map f | f in data :: if f in fields then data[f] - {name} else data[f]
  }

  function SetAt(data: Data, f: Field, name: string, v: Value): (r: Data)
    requires f in data
    ensures r.Keys == data.Keys
    ensures forall g, other {:trigger At(r, g, other)} ::
              At(r, g, other) == if g == f && other == name then Some(v) else At(data, g, other)
  {
    data[f := data[f][name := v]]
  }

  method CleanFields(data: Data) returns (result: Data, names: set<string>)
    ensures result.Keys == ALL_FIELDS
    ensures forall f, name :: At(result, f, name) == Clean(f, At(data, f, name))
    ensures forall f, name :: At(result, f, name).Some? ==> name in names
  {
    result, names := map[], {};
    for i := 0 to |FIELDS|
      invariant forall k :: 0 <= k < i ==> FIELDS[k] in result
      invariant forall f :: f in result ==> f in FIELDS[..i]
      invariant forall f, name :: f in result ==> At(result, f, name) == Clean(f, At(data, f, name))
      invariant forall f, name :: At(result, f, name).Some? ==> name in names
    {
      var f := FIELDS[i];
      var entries := CleanEntries(f, EntriesOf(data, f));
      result := result[f := entries];
      names := names + entries.Keys;
    }
    forall f: Field ensures f in result {
      FieldListed(f);
    }
  }

  /** The second loop's body: settle one model in place. */
  method SettleName(data: Data, name: string) returns (result: Data)
    requires data.Keys == ALL_FIELDS
    ensures result.Keys == data.Keys
    ensures forall f, other :: other != name ==> At(result, f, other) == At(data, f, other)
    ensures forall f :: At(result, f, name)
                        == Settle(f, At(data, f, name), At(data, BillingMode, name), At(data, BillingExpr, name),
                                  At(data, ModelPrice, name), At(data, ModelRatio, name))
  {
    var raw := At(data, BillingExpr, name);
    var expression := if raw.Some? && raw.value.Str? then raw.value.s else "";
    if At(data, BillingMode, name) == Some(TIERED) {
      if TrimSpace(expression) == "" {
        result := DropName(data, ALL_FIELDS, name);
      } else {
        result := SettleTiered(data, name, TrimSpace(expression));
      }
    } else {
      result := SettleRatio(data, name);
    }
  }

  method SettleTiered(data: Data, name: string, expression: string) returns (result: Data)
    requires BillingExpr in data
    ensures result.Keys == data.Keys
    ensures forall f, other ::
              At(result, f, other)
              == if other != name then At(data, f, other)
                 else if Numeric(f) then None
                 else if f == BillingExpr then Some(Str(expression))
                 else At(data, f, name)
  {
    result := SetAt(data, BillingExpr, name, Str(expression));
    result := DropName(result, NUMERIC_FIELDS, name);
  }

  method SettleRatio(data: Data, name: string) returns (result: Data)
    requires BillingExpr in data && BillingMode in data
    ensures result.Keys == data.Keys
    ensures forall f, other ::
              At(result, f, other)
              == if other != name then At(data, f, other)
                 else if At(data, ModelPrice, name).None? && At(data, ModelRatio, name).None? then None
                 else if f == BillingExpr then None
                 else if f == BillingMode then Some(RATIO)
                 else if At(data, ModelPrice, name).Some? && f != ModelPrice then None
                 else At(data, f, name)
  {
    result := DropName(data, {BillingExpr}, name);
    result := SetAt(result, BillingMode, name, RATIO);
    var fixed, token := At(result, ModelPrice, name).Some?, At(result, ModelRatio, name).Some?;
    if !fixed && !token {
      result := DropName(result, ALL_FIELDS, name);
      return;
    }
    if fixed {
      result := DropName(result, NUMERIC_FIELDS - {ModelPrice}, name);
    }
  }

  /** `effectivePricingSyncData` */
  method EffectivePricingSyncData(data: Data) returns (result: Data)
    ensures result == Effective(data)
  {
    var names;
    result, names := CleanFields(data);
    ghost var cleaned := result;
    var rest := names;
    while rest != {}
      invariant rest <= names
      invariant result.Keys == ALL_FIELDS
      invariant forall f, name :: name in rest || name !in names ==> At(result, f, name) == At(cleaned, f, name)
      invariant forall f, name :: name in names - rest ==> At(result, f, name) == EffectiveAt(data, f, name)
      decreases |rest|
    {
      var name :| name in rest;
      rest := rest - {name};
      result := SettleName(result, name);
    }
    forall f, name ensures At(result, f, name) == EffectiveAt(data, f, name) {
      if name !in names {
        assert At(cleaned, f, name).None? && At(cleaned, BillingMode, name).None?;
        assert At(cleaned, ModelPrice, name).None? && At(cleaned, ModelRatio, name).None?;
      }
    }
    SameTable(data, result);
  }

  /** A table is determined by its entries. */
  lemma SameTable(data: Data, result: Data)
    requires result.Keys == ALL_FIELDS
    requires forall f, name :: At(result, f, name) == EffectiveAt(data, f, name)
    ensures result == Effective(data)
  {
    forall f: Field ensures result[f] == Effective(data)[f] {
      forall name ensures At(Effective(data), f, name) == At(result, f, name) {
        EffectiveEntry(data, f, name);
      }
      assert forall name :: name in result[f] <==> At(result, f, name).Some?;
      assert forall name :: name in Effective(data)[f] <==> At(Effective(data), f, name).Some?;
      forall name | name in result[f] ensures result[f][name] == Effective(data)[f][name] {
        assert At(Effective(data), f, name) == At(result, f, name);
      }
    }
  }

  // ---------------------------------------------------------------- canonical and idempotent

  predicate Amount(v: Option<Value>) {
    v.Some? ==> v.value.Float? && v.value.r >= 0.0
  }

  ghost predicate NoNumbers(data: Data, name: string) {
    forall f :: Numeric(f) ==> At(data, f, name).None?
  }

  /** Priced by an expression: tiered mode, a nonempty trimmed expression, no number. */
  ghost predicate TieredShape(data: Data, name: string) {
    && At(data, BillingMode, name) == Some(TIERED)
    && (var e := At(data, BillingExpr, name); e.Some? && e.value.Str? && e.value.s != "" && Trimmed(e.value.s))
    && NoNumbers(data, name)
  }

  /** Priced per call: ratio mode and the price alone. */
  ghost predicate FixedShape(data: Data, name: string) {
    && At(data, BillingMode, name) == Some(RATIO)
    && At(data, BillingExpr, name).None?
    && At(data, ModelPrice, name).Some?
    && forall f :: Numeric(f) && f != ModelPrice ==> At(data, f, name).None?
  }

  /** Priced per token: ratio mode, a model ratio and no price. */
  ghost predicate TokenShape(data: Data, name: string) {
    && At(data, BillingMode, name) == Some(RATIO)
    && At(data, BillingExpr, name).None?
    && At(data, ModelPrice, name).None?
    && At(data, ModelRatio, name).Some?
  }

  ghost predicate Absent(data: Data, name: string) {
    forall f :: At(data, f, name).None?
  }

  ghost predicate CanonicalAt(data: Data, name: string) {
    && (Absent(data, name) || TieredShape(data, name) || FixedShape(data, name) || TokenShape(data, name))
    && forall f :: Numeric(f) ==> Amount(At(data, f, name))
  }

  lemma ExpressionTrimmed(expr: Option<Value>)
    ensures Trimmed(Expression(expr))
  {
    if expr.Some? && expr.value.Str? {
      TrimSpaceTrims(expr.value.s);
    }
  }

  /** Every model of an effective table has one of the three shapes, or is absent. */
  lemma EffectiveIsCanonical(data: Data, name: string)
    ensures CanonicalAt(Effective(data), name)
  {
    var result := Effective(data);
    var mode, expr := Clean(BillingMode, At(data, BillingMode, name)), Clean(BillingExpr, At(data, BillingExpr, name));
    var price, ratio := Clean(ModelPrice, At(data, ModelPrice, name)), Clean(ModelRatio, At(data, ModelRatio, name));
    ExpressionTrimmed(expr);
    forall f
      ensures At(result, f, name) == Settle(f, Clean(f, At(data, f, name)), mode, expr, price, ratio)
      ensures Numeric(f) ==> Amount(At(result, f, name))
    {
      EffectiveEntry(data, f, name);
    }
    if mode == Some(TIERED) {
      assert if Expression(expr) == "" then Absent(result, name) else TieredShape(result, name);
    } else if price.Some? {
      assert FixedShape(result, name);
    } else {
      assert if ratio.Some? then TokenShape(result, name) else Absent(result, name);
    }
  }

  /** A canonical table is its own effective form. */
  lemma CanonicalIsFixed(data: Data, f: Field, name: string)
    requires CanonicalAt(data, name)
    ensures EffectiveAt(data, f, name) == At(data, f, name)
  {
    if TieredShape(data, name) {
      TrimSpaceTrims(At(data, BillingExpr, name).value.s);
    }
  }

  /** Normalising twice changes nothing. */
  lemma EffectiveTwice(data: Data)
    ensures Effective(Effective(data)) == Effective(data)
  {
    var once := Effective(data);
    forall f, name ensures At(once, f, name) == EffectiveAt(once, f, name) {
      EffectiveIsCanonical(data, name);
      CanonicalIsFixed(once, f, name);
    }
    SameTable(once, once);
  }

  // ---------------------------------------------------------------- written out

  /** A usable number: a finite amount that is not negative, integers read as such. */
  function AmountIn(v: Option<Value>): Option<Value> {
    match v
    case Some(Float(r)) => if r >= 0.0 then v else None
    case Some(Int(n)) => if n >= 0 then Some(Float(n as real)) else None
    case _ => None
  }

  lemma CleanWrittenOut(f: Field, v: Option<Value>)
    ensures Clean(f, v) == if f == BillingMode || f == BillingExpr then v else AmountIn(v)
  {
  }

  /** A model in tiered mode keeps its trimmed expression alone, and disappears when that is blank. */
  lemma TieredModel(data: Data, m: string, expression: string)
    requires At(data, BillingMode, m) == Some(Str("tiered_expr")) && At(data, BillingExpr, m) == Some(Str(expression))
    ensures forall f :: At(Effective(data), f, m)
                        == if TrimSpace(expression) == "" then None
                           else match f
                             case BillingMode => Some(Str("tiered_expr"))
                             case BillingExpr => Some(Str(TrimSpace(expression)))
                             case _ => None
  {
    forall f ensures At(Effective(data), f, m) == EffectiveAt(data, f, m) {
      EffectiveEntry(data, f, m);
    }
  }

  /** A model in any other mode is priced by the call if it has a price, else by tokens if it has a ratio, else gone. */
  lemma RatioModel(data: Data, m: string)
    requires At(data, BillingMode, m) != Some(Str("tiered_expr"))
    ensures var price, ratio := AmountIn(At(data, ModelPrice, m)), AmountIn(At(data, ModelRatio, m));
            forall f :: At(Effective(data), f, m)
                        == if (price.None? && ratio.None?) || f == BillingExpr then None
                           else if f == BillingMode then Some(Str("ratio"))
                           else if price.Some? && f != ModelPrice then None
                           else AmountIn(At(data, f, m))
  {
    forall f ensures At(Effective(data), f, m) == EffectiveAt(data, f, m) && Clean(f, At(data, f, m))
                     == if f == BillingMode || f == BillingExpr then At(data, f, m) else AmountIn(At(data, f, m)) {
      EffectiveEntry(data, f, m);
      CleanWrittenOut(f, At(data, f, m));
    }
  }
}
