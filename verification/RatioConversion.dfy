/**
  Conversion of flat token prices into the ratio settings, which are rounded to six decimals.
 */
module RatioConversion {
  import opened Numbers
  import opened BillingExpression
  import opened Wrappers

  const MILLION := 1000000.0

  /** `roundRatioValue` */
  function RoundRatio(v: real): (r: real)
    ensures v >= 0.0 ==> r >= 0.0
  {
    Round(v * MILLION) as real / MILLION
  }

  lemma RoundRatioError(v: real)
    ensures Abs(RoundRatio(v) - v) <= 0.0000005
  {
    var n := Round(v * MILLION) as real;
    assert Abs(n - v * MILLION) <= 0.5;
    assert RoundRatio(v) * MILLION == n;
  }

  /** The ratio settings written for one model, absent where the map gets no entry. */
  datatype Ratios = Ratios(
    model: Option<real>,
    completion: Option<real>,
    cache: Option<real>,
    createCache: Option<real>,
    audio: Option<real>,
    audioCompletion: Option<real>)

  const NO_RATIOS := Ratios(None, None, None, None, None, None)

  /** `hasPositiveModelsDevNonInputCost` */
  predicate PositiveNonInput(p: Price) {
    || Positive(p.output) || Positive(p.cacheRead) || Positive(p.cacheWrite)
    || Positive(p.inputAudio) || Positive(p.outputAudio)
  }

  predicate Positive(v: Option<real>) {
    v.Some? && v.value > 0.0
  }

  /** `setModelsDevRatioValue` */
  function RatioTo(numerator: Option<real>, denominator: real): Option<real>
    requires denominator != 0.0
  {
    if numerator.None? then None else Some(RoundRatio(numerator.value / denominator))
  }

  function Convert(p: Price): Option<Ratios>
    requires p.input.Some?
  {
    var input := p.input.value;
    if input == 0.0 then
      if PositiveNonInput(p) then None else Some(NO_RATIOS.(model := Some(0.0)))
    else
      Some(Ratios(
             Some(RoundRatio(input / 2.0)),
             RatioTo(p.output, input),
             RatioTo(p.cacheRead, input),
             RatioTo(p.cacheWrite, input),
             RatioTo(p.inputAudio, input),
             if p.outputAudio.Some? && Positive(p.inputAudio)
             then Some(RoundRatio(p.outputAudio.value / p.inputAudio.value)) else None))
  }

  class RatioTables {
    var model: map<string, real>
    var completion: map<string, real>
    var cache: map<string, real>
    var createCache: map<string, real>
    var audio: map<string, real>
    var audioCompletion: map<string, real>

    constructor ()
      ensures model == completion == cache == createCache == audio == audioCompletion == map[]
    {
      model, completion, cache, createCache, audio, audioCompletion := map[], map[], map[], map[], map[], map[];
    }

    /** `addModelsDevTokenPricing`; it refuses exactly a free input with some positive other price. */
    method AddTokenPricing(name: string, p: Price) returns (ok: bool)
      requires ValidPrice(p)
      modifies this
      ensures ok <==> Convert(p).Some?
      ensures ok <==> p.input.value > 0.0 || !PositiveNonInput(p)
      ensures var r := if ok then Convert(p).value else NO_RATIOS;
              && model == Put(old(model), name, r.model)
              && completion == Put(old(completion), name, r.completion)
              && cache == Put(old(cache), name, r.cache)
              && createCache == Put(old(createCache), name, r.createCache)
              && audio == Put(old(audio), name, r.audio)
              && audioCompletion == Put(old(audioCompletion), name, r.audioCompletion)
    {
      var input := p.input.value;
      if input == 0.0 {
        if PositiveNonInput(p) {
          return false;
        }
        model := model[name := 0.0];
        return true;
      }
      model := model[name := RoundRatio(input / 2.0)];
      completion := Put(completion, name, RatioTo(p.output, input));
      cache := Put(cache, name, RatioTo(p.cacheRead, input));
      createCache := Put(createCache, name, RatioTo(p.cacheWrite, input));
      audio := Put(audio, name, RatioTo(p.inputAudio, input));
      if p.outputAudio.Some? && p.inputAudio.Some? && p.inputAudio.value > 0.0 {
        audioCompletion := audioCompletion[name := RoundRatio(p.outputAudio.value / p.inputAudio.value)];
      }
      return true;
    }
  }

  function Put(m: map<string, real>, name: string, v: Option<real>): map<string, real> {
    if v.None? then m else m[name := v.value]
  }

  // ---------------------------------------------------------------- prices recovered from the ratios

  lemma ProductBound(a: real, x: real, bound: real)
    requires a >= 0.0 && -bound <= x <= bound
    ensures -(a * bound) <= a * x <= a * bound
  {
    ProductNonNegative(a, bound - x);
    ProductNonNegative(a, bound + x);
    assert a * (bound - x) == a * bound - a * x;
    assert a * (bound + x) == a * bound + a * x;
  }

  /**
    A price stored as its ratio `r` to a denominator, off by `e`, is recovered by multiplying back, where
    the denominator itself is only known up to `slack`.
   */
  lemma RecoveredBound(price: real, denominator: real, known: real, slack: real, r: real, e: real)
    requires denominator > 0.0 && r >= 0.0
    requires -slack <= known - denominator <= slack && -e <= r - price / denominator <= e
    ensures -(r * slack + denominator * e) <= r * known - price <= r * slack + denominator * e
  {
    var q := price / denominator;
    ProductBound(r, known - denominator, slack);
    ProductBound(denominator, r - q, e);
    assert denominator * q == price;
    assert r * (known - denominator) == r * known - r * denominator;
    assert denominator * (r - q) == r * denominator - price;
  }

  lemma RatioFacts(v: real, r: real)
    requires v >= 0.0 && r == RoundRatio(v)
    ensures r >= 0.0 && -0.0000005 <= r - v <= 0.0000005
  {
    RoundRatioError(v);
  }

  lemma QuotientNonNegative(a: real, b: real)
    requires a >= 0.0 && b > 0.0
    ensures a / b >= 0.0
  {
  }

  /** Twice the model ratio `m` is the input price, up to a millionth. */
  lemma ModelRatioBound(input: real, m: real)
    requires input > 0.0 && m == RoundRatio(input / 2.0)
    ensures m >= 0.0 && -0.000001 <= 2.0 * m - input <= 0.000001
  {
    RatioFacts(input / 2.0, m);
  }

  /** A price stored as a rounded ratio `r`, recovered from a denominator known up to `slack`. */
  lemma StoredRatioBound(price: real, denominator: real, known: real, slack: real, r: real)
    requires price >= 0.0 && denominator > 0.0 && r == RoundRatio(price / denominator)
    requires Abs(known - denominator) <= slack
    ensures Abs(r * known - price) <= r * slack + denominator * 0.0000005
  {
    QuotientNonNegative(price, denominator);
    RatioFacts(price / denominator, r);
    RecoveredBound(price, denominator, known, slack, r, 0.0000005);
  }

  /** What billing by the model ratio `m` and the completion ratio `c` charges for output, against its true price. */
  lemma CompletionBound(input: real, output: real, m: real, c: real)
    requires input > 0.0 && output >= 0.0
    requires m == RoundRatio(input / 2.0) && c == RoundRatio(output / input)
    ensures Abs(c * (2.0 * m) - output) <= c * 0.000001 + input * 0.0000005
  {
    ModelRatioBound(input, m);
    StoredRatioBound(output, input, 2.0 * m, 0.000001, c);
  }

  /** What input audio is charged through its stored ratio `a`, and how far that may be off. */
  function KnownAudio(m: real, a: real): real {
    a * (2.0 * m)
  }

  function AudioSlack(input: real, a: real): real {
    a * 0.000001 + input * 0.0000005
  }

  predicate AudioWithin(inputAudio: real, outputAudio: real, ac: real, known: real, slack: real) {
    Abs(ac * known - outputAudio) <= ac * slack + inputAudio * 0.0000005
  }

  /** Output audio is stored relative to input audio (`ac`), which is stored relative to the input price (`a`). */
  lemma AudioCompletionBound(input: real, inputAudio: real, outputAudio: real, m: real, a: real, ac: real)
    requires input > 0.0 && inputAudio > 0.0 && outputAudio >= 0.0
    requires m == RoundRatio(input / 2.0) && a == RoundRatio(inputAudio / input)
    requires ac == RoundRatio(outputAudio / inputAudio)
    ensures AudioWithin(inputAudio, outputAudio, ac, KnownAudio(m, a), AudioSlack(input, a))
  {
    AudioKnown(input, inputAudio, m, a);
    ChainedBound(inputAudio, outputAudio, ac, KnownAudio(m, a), AudioSlack(input, a));
  }

  lemma AudioKnown(input: real, inputAudio: real, m: real, a: real)
    requires input > 0.0 && inputAudio > 0.0
    requires m == RoundRatio(input / 2.0) && a == RoundRatio(inputAudio / input)
    ensures Abs(KnownAudio(m, a) - inputAudio) <= AudioSlack(input, a)
  {
    CompletionBound(input, inputAudio, m, a);
  }

  lemma ChainedBound(inputAudio: real, outputAudio: real, ac: real, known: real, slack: real)
    requires inputAudio > 0.0 && outputAudio >= 0.0 && ac == RoundRatio(outputAudio / inputAudio)
    requires Abs(known - inputAudio) <= slack
    ensures AudioWithin(inputAudio, outputAudio, ac, known, slack)
  {
    StoredRatioBound(outputAudio, inputAudio, known, slack, ac);
  }

  /** A stored ratio, where there is one, gives back its price within the bound. */
  predicate Recovers(input: real, price: Option<real>, m: real, ratio: Option<real>) {
    price.Some? == ratio.Some?
    && (price.Some? ==>
          Abs(ratio.value * (2.0 * m) - price.value) <= ratio.value * 0.000001 + input * 0.0000005)
  }

  lemma RatioRecovers(input: real, price: Option<real>, m: real)
    requires input > 0.0 && m == RoundRatio(input / 2.0) && ValidCost(price)
    ensures Recovers(input, price, m, RatioTo(price, input))
  {
    if price.Some? {
      CompletionBound(input, price.value, m, RatioTo(price, input).value);
    }
  }

  /** Output audio is stored exactly when both audio prices are known and input audio costs something. */
  predicate RecoversAudio(p: Price, m: real, audio: Option<real>, audioCompletion: Option<real>)
    requires p.input.Some?
  {
    && (audioCompletion.Some? <==> p.outputAudio.Some? && Positive(p.inputAudio))
    && (audioCompletion.Some? ==>
          && audio.Some?
          && AudioWithin(p.inputAudio.value, p.outputAudio.value, audioCompletion.value,
                         KnownAudio(m, audio.value), AudioSlack(p.input.value, audio.value)))
  }

  lemma AudioRecovers(p: Price, r: Ratios)
    requires ValidPrice(p) && p.input.value > 0.0 && Convert(p) == Some(r) && r.model.Some?
    ensures RecoversAudio(p, r.model.value, r.audio, r.audioCompletion)
  {
    if r.audioCompletion.Some? {
      AudioCompletionBound(p.input.value, p.inputAudio.value, p.outputAudio.value,
                           r.model.value, r.audio.value, r.audioCompletion.value);
    }
  }

  /** Every setting written for a model with a positive input price gives its price back within the bound. */
  lemma ConversionRecoversPrices(p: Price)
    requires ValidPrice(p) && p.input.value > 0.0
    ensures Convert(p).Some? && Convert(p).value.model.Some?
    ensures var r, input := Convert(p).value, p.input.value;
            var m := r.model.value;
            && Abs(2.0 * m - input) <= 0.000001
            && Recovers(input, p.output, m, r.completion)
            && Recovers(input, p.cacheRead, m, r.cache)
            && Recovers(input, p.cacheWrite, m, r.createCache)
            && Recovers(input, p.inputAudio, m, r.audio)
            && RecoversAudio(p, m, r.audio, r.audioCompletion)
  {
    var input := p.input.value;
    var m := RoundRatio(input / 2.0);
    ModelRatioBound(input, m);
    RatioRecovers(input, p.output, m);
    RatioRecovers(input, p.cacheRead, m);
    RatioRecovers(input, p.cacheWrite, m);
    RatioRecovers(input, p.inputAudio, m);
    AudioRecovers(p, Convert(p).value);
  }

  /** A free model is stored with ratio zero and nothing else, unless something besides input costs. */
  lemma FreeInput(p: Price)
    requires p.input == Some(0.0)
    ensures var costs := (p.output.Some? && p.output.value > 0.0) || (p.cacheRead.Some? && p.cacheRead.value > 0.0)
                         || (p.cacheWrite.Some? && p.cacheWrite.value > 0.0)
                         || (p.inputAudio.Some? && p.inputAudio.value > 0.0)
                         || (p.outputAudio.Some? && p.outputAudio.value > 0.0);
            Convert(p) == if costs then None else Some(Ratios(Some(0.0), None, None, None, None, None))
  {
  }
}
