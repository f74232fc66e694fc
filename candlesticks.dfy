/** The exchange's kline response and how it is decoded (src/candlesticks.rs):
    the tolerant decoder `str_or_f64` for the six price/volume fields, the
    all-or-nothing decoding of a `Request`, and the request URL.
    JSON is seen only through the kind of each field's value; serde's own
    machinery, the HTTP transport and floating-point parsing are outside the
    model (parsing and `as_f64` are parameters). */
module Candlesticks {
  import opened Base

  /** An `f64`, kept opaque as its IEEE 754 bit pattern. */
  datatype F64 = F64(bits: bv64)

  /** Neither an infinity nor a NaN: the exponent bits are not all set. */
  predicate Finite(f: F64)
  {
    (f.bits >> 52) & 0x7FF != 0x7FF
  }

  /** `f64::default()`, i.e. `0.0`. */
  const Zero: F64 := F64(0)

  /** serde_json's number representation. */
  datatype JsonNumber = PosInt(u: nat) | NegInt(i: int) | Float(f: F64)

  /** The kinds of JSON value `str_or_f64` tells apart; null, booleans,
      arrays and objects are all `Other`. */
  datatype JsonValue = String(s: string) | Number(n: JsonNumber) | Other

  /** The two conversions the decoder relies on and the model does not
      interpret: `str::parse::<f64>` and `Number::as_f64`. */
  datatype Conversions = Conversions(parse: string -> Option<F64>, asF64: JsonNumber -> Option<F64>)

  /** serde_json's `as_f64` hands back a float number as it is. */
  ghost predicate KeepsFloats(conv: Conversions)
  {
    forall f: F64 {:trigger Float(f)} :: conv.asF64(Float(f)) == Some(f)
  }

  datatype DecodeError =
    | InvalidNumber   // "Invalid number": `as_f64` gave nothing
    | WrongType       // "wrong type", or a value of the wrong kind for an integer field
    | InvalidValue    // an integer out of range for its field
    | Malformed       // the body is not a JSON object of the response's shape

  /** `str_or_f64`: a string is parsed, falling back to 0.0; a number is
      converted, failing with "Invalid number" when it has no `f64` value;
      any other kind fails with "wrong type". */
  function StrOrF64(v: JsonValue, conv: Conversions): (r: Result<F64, DecodeError>)
    ensures v.String? ==> r.Ok?
    ensures r.Err? ==> r.error == (if v.Number? then InvalidNumber else WrongType)
  {
    match v
    case String(s) => Ok(match conv.parse(s) case Some(x) => x case None => Zero)
    case Number(n) => (match conv.asF64(n) case Some(x) => Ok(x) case None => Err(InvalidNumber))
    case Other => Err(WrongType)
  }

  /** The decoding policy, kind by kind. */
  lemma StrOrF64Policy(v: JsonValue, conv: Conversions)
    ensures v.String? ==> StrOrF64(v, conv).Ok?
    ensures v.String? && conv.parse(v.s).Some? ==> StrOrF64(v, conv).value == conv.parse(v.s).value
    ensures v.String? && conv.parse(v.s).None? ==> StrOrF64(v, conv).value == Zero
    ensures v.Number? ==> forall x :: StrOrF64(v, conv) == Ok(x) <==> conv.asF64(v.n) == Some(x)
    ensures v.Number? ==> (StrOrF64(v, conv) == Err(InvalidNumber) <==> conv.asF64(v.n).None?)
    ensures v.Other? ==> StrOrF64(v, conv) == Err(WrongType)
  {
  }

  /** A JSON string is never a decode error; a number is one exactly when
      it has no `f64` value; every other kind always is. */
  lemma StrOrF64Fails(v: JsonValue, conv: Conversions)
    ensures StrOrF64(v, conv).Err? <==> v.Other? || (v.Number? && conv.asF64(v.n).None?)
    ensures StrOrF64(v, conv).Err? && v.Number? ==> StrOrF64(v, conv).error == InvalidNumber
    ensures StrOrF64(v, conv).Err? && !v.Number? ==> StrOrF64(v, conv).error == WrongType
  {
  }

  /** A field written as the string `"12.5"` or as the number `12.5`
      decodes to the same float. */
  lemma StringAndNumberAgree(s: string, n: JsonNumber, conv: Conversions)
    requires conv.parse(s).Some? && conv.parse(s) == conv.asF64(n)
    ensures StrOrF64(String(s), conv) == StrOrF64(Number(n), conv) == Ok(conv.parse(s).value)
  {
  }

  /** An unparsable string decodes to 0.0, not to an error. */
  lemma UnparsableStringIsZero(s: string, conv: Conversions)
    requires conv.parse(s).None?
    ensures StrOrF64(String(s), conv) == Ok(Zero)
  {
  }

  /** serde's decoding of an unsigned integer field below `limit`: only a
      non-negative integer number fits, a string is never accepted. */
  function DecodeUnsigned(v: JsonValue, limit: nat): (r: Result<nat, DecodeError>)
    ensures r.Ok? <==> v.Number? && v.n.PosInt? && v.n.u < limit
    ensures r.Ok? ==> r.value == v.n.u && r.value < limit
  {
    match v
    case Number(PosInt(u)) => if u < limit then Ok(u) else Err(InvalidValue)
    case Number(NegInt(_)) => Err(InvalidValue)
    case _ => Err(WrongType)
  }

  /** One OHLCV sample.  The timestamp is a `u32` count of seconds. */
  datatype CandleStick = CandleStick(timestamp: U32, open: F64, close: F64, high: F64,
                                     low: F64, volume: F64, amount: F64)

  /** The response envelope: the exchange's status code and the samples in
      the order they arrived. */
  datatype Request = Request(code: U8, data: seq<CandleStick>)

  /** The wire shape of a sample and of a response. */
  datatype WireCandle = WireCandle(timestamp: JsonValue, open: JsonValue, close: JsonValue,
                                   high: JsonValue, low: JsonValue, volume: JsonValue,
                                   amount: JsonValue)

  datatype WireRequest = WireRequest(code: JsonValue, data: seq<WireCandle>)

  /** Decodes one sample: the timestamp strictly, the six other fields with
      `str_or_f64`; the first failing field, in declaration order, fails the
      sample. */
  function DecodeCandle(w: WireCandle, conv: Conversions): (r: Result<CandleStick, DecodeError>)
    ensures r.Ok? ==> w.timestamp == Number(PosInt(r.value.timestamp))
    ensures r.Ok? ==> StrOrF64(w.open, conv) == Ok(r.value.open) && StrOrF64(w.close, conv) == Ok(r.value.close)
                      && StrOrF64(w.high, conv) == Ok(r.value.high) && StrOrF64(w.low, conv) == Ok(r.value.low)
                      && StrOrF64(w.volume, conv) == Ok(r.value.volume) && StrOrF64(w.amount, conv) == Ok(r.value.amount)
  {
    match DecodeUnsigned(w.timestamp, 0x1_0000_0000)
    case Err(e) => Err(e)
    case Ok(ts) =>
      match StrOrF64(w.open, conv)
      case Err(e) => Err(e)
      case Ok(open) =>
        match StrOrF64(w.close, conv)
        case Err(e) => Err(e)
        case Ok(close) =>
          match StrOrF64(w.high, conv)
          case Err(e) => Err(e)
          case Ok(high) =>
            match StrOrF64(w.low, conv)
            case Err(e) => Err(e)
            case Ok(low) =>
              match StrOrF64(w.volume, conv)
              case Err(e) => Err(e)
              case Ok(volume) =>
                match StrOrF64(w.amount, conv)
                case Err(e) => Err(e)
                case Ok(amount) => Ok(CandleStick(ts, open, close, high, low, volume, amount))
  }

  /** A sample decodes exactly when its timestamp is a `u32` and each of
      the six tolerant fields decodes, and then it holds those values. */
  lemma DecodeCandleFields(w: WireCandle, conv: Conversions)
    ensures DecodeCandle(w, conv).Ok? <==>
              DecodeUnsigned(w.timestamp, 0x1_0000_0000).Ok?
              && StrOrF64(w.open, conv).Ok? && StrOrF64(w.close, conv).Ok?
              && StrOrF64(w.high, conv).Ok? && StrOrF64(w.low, conv).Ok?
              && StrOrF64(w.volume, conv).Ok? && StrOrF64(w.amount, conv).Ok?
    ensures DecodeCandle(w, conv).Ok? ==>
              DecodeCandle(w, conv).value
              == CandleStick(DecodeUnsigned(w.timestamp, 0x1_0000_0000).value,
                             StrOrF64(w.open, conv).value, StrOrF64(w.close, conv).value,
                             StrOrF64(w.high, conv).value, StrOrF64(w.low, conv).value,
                             StrOrF64(w.volume, conv).value, StrOrF64(w.amount, conv).value)
  {
  }

  /** The tolerant fields never fail on strings, the timestamp always does:
      a sample whose six price/volume fields are JSON strings decodes
      whatever they contain, provided its timestamp is an in-range integer,
      and a sample whose timestamp is a string never decodes. */
  lemma StringFieldsTolerated(w: WireCandle, conv: Conversions)
    ensures w.open.String? && w.close.String? && w.high.String? && w.low.String?
            && w.volume.String? && w.amount.String?
            ==> (DecodeCandle(w, conv).Ok? <==> DecodeUnsigned(w.timestamp, 0x1_0000_0000).Ok?)
    ensures w.timestamp.String? ==> DecodeCandle(w, conv) == Err(WrongType)
  {
  }

  /** Decodes the samples in order; one failing sample fails them all. */
  function DecodeCandles(ws: seq<WireCandle>, conv: Conversions): (r: Result<seq<CandleStick>, DecodeError>)
    ensures r.Ok? <==> forall i :: 0 <= i < |ws| ==> DecodeCandle(ws[i], conv).Ok?
    ensures r.Ok? ==> |r.value| == |ws|
    ensures r.Ok? ==> forall i :: 0 <= i < |ws| ==> r.value[i] == DecodeCandle(ws[i], conv).value
  {
    if ws == [] then Ok([])
    else
      match DecodeCandle(ws[0], conv)
      case Err(e) => Err(e)
      case Ok(c) =>
        match DecodeCandles(ws[1..], conv)
        case Err(e) => Err(e)
        case Ok(cs) =>
          assert forall i :: 1 <= i < |ws| ==> ws[i] == ws[1..][i - 1];
          Ok([c] + cs)
  }

  /** `Request` decoding: the code must be a `u8` and every sample must
      decode; the result keeps the samples in wire order. */
  function DecodeRequest(w: WireRequest, conv: Conversions): (r: Result<Request, DecodeError>)
    ensures r.Ok? <==> DecodeUnsigned(w.code, 0x100).Ok?
                       && forall i :: 0 <= i < |w.data| ==> DecodeCandle(w.data[i], conv).Ok?
    ensures r.Ok? ==> r.value.code == w.code.n.u && |r.value.data| == |w.data|
    ensures r.Ok? ==> forall i :: 0 <= i < |w.data| ==> r.value.data[i] == DecodeCandle(w.data[i], conv).value
  {
    match DecodeUnsigned(w.code, 0x100)
    case Err(e) => Err(e)
    case Ok(code) =>
      match DecodeCandles(w.data, conv)
      case Err(e) => Err(e)
      case Ok(data) => Ok(Request(code, data))
  }

  /** How serde_json writes an `f64`: a number when it is finite, `null`
      for an infinity or a NaN, which JSON cannot express. */
  function EncodeFloat(f: F64): JsonValue
  {
    if Finite(f) then Number(Float(f)) else Other
  }

  /** The wire form of a sample, as the derived `Serialize` writes it. */
  function EncodeCandle(c: CandleStick): WireCandle
  {
    WireCandle(Number(PosInt(c.timestamp)), EncodeFloat(c.open), EncodeFloat(c.close),
               EncodeFloat(c.high), EncodeFloat(c.low), EncodeFloat(c.volume),
               EncodeFloat(c.amount))
  }

  function EncodeRequest(r: Request): (w: WireRequest)
    ensures |w.data| == |r.data|
  {
    WireRequest(Number(PosInt(r.code)), seq(|r.data|, i requires 0 <= i < |r.data| => EncodeCandle(r.data[i])))
  }

  /** Every float of the sample is finite. */
  predicate FiniteCandle(c: CandleStick)
  {
    Finite(c.open) && Finite(c.close) && Finite(c.high) && Finite(c.low)
    && Finite(c.volume) && Finite(c.amount)
  }

  /** Encoding a sample and decoding it gives it back exactly when its
      floats are finite; an infinity or a NaN comes back as "wrong type",
      since it is written as `null`. */
  lemma CandleRoundTrip(c: CandleStick, conv: Conversions)
    requires KeepsFloats(conv)
    ensures DecodeCandle(EncodeCandle(c), conv) == Ok(c) <==> FiniteCandle(c)
    ensures !FiniteCandle(c) ==> DecodeCandle(EncodeCandle(c), conv) == Err(WrongType)
  {
    assert conv.asF64(Float(c.open)) == Some(c.open);
    assert conv.asF64(Float(c.close)) == Some(c.close);
    assert conv.asF64(Float(c.high)) == Some(c.high);
    assert conv.asF64(Float(c.low)) == Some(c.low);
    assert conv.asF64(Float(c.volume)) == Some(c.volume);
    assert conv.asF64(Float(c.amount)) == Some(c.amount);
  }

  /** Encoding a response and decoding it gives it back, samples in order,
      exactly when every sample's floats are finite; otherwise decoding
      fails as a whole. */
  lemma RequestRoundTrip(r: Request, conv: Conversions)
    requires KeepsFloats(conv)
    ensures DecodeRequest(EncodeRequest(r), conv) == Ok(r)
            <==> forall i :: 0 <= i < |r.data| ==> FiniteCandle(r.data[i])
    ensures (exists i :: 0 <= i < |r.data| && !FiniteCandle(r.data[i]))
            ==> DecodeRequest(EncodeRequest(r), conv).Err?
  {
    var w := EncodeRequest(r);
    forall i | 0 <= i < |r.data|
      ensures DecodeCandle(w.data[i], conv) == Ok(r.data[i]) <==> FiniteCandle(r.data[i])
      ensures DecodeCandle(w.data[i], conv).Ok? <==> FiniteCandle(r.data[i])
    {
      CandleRoundTrip(r.data[i], conv);
    }
    var d := DecodeRequest(w, conv);
    if forall i :: 0 <= i < |r.data| ==> FiniteCandle(r.data[i]) {
      assert d.Ok?;
      assert d.value.data == r.data;
    }
  }

  /** Where the dashboard fetches from.  The original declares only
      `base_url` but uses `symbol` and `interval` as well. */
  datatype Api = Api(baseUrl: string, symbol: string, interval: string)

  const KlinePath: string := "/open/api/v2/market/kline?symbol="
  const IntervalParam: string := "&interval="

  /** The URL `make_request` fetches: both inputs are interpolated as they
      are, with no escaping. */
  function KlineUrl(baseUrl: string, symbol: string, interval: string): (url: string)
    ensures |url| == |baseUrl| + |KlinePath| + |symbol| + |IntervalParam| + |interval|
    ensures url[..|baseUrl|] == baseUrl
    ensures url[|url| - |interval|..] == interval
  {
    baseUrl + KlinePath + symbol + IntervalParam + interval
  }

  /** Index of the first `&` in `s`, or `|s|` when there is none. */
  function FirstAmpersand(s: string): (k: nat)
    ensures k <= |s|
    ensures forall j :: 0 <= j < k ==> s[j] != '&'
    ensures k < |s| ==> s[k] == '&'
  {
    if s == [] || s[0] == '&' then 0 else 1 + FirstAmpersand(s[1..])
  }

  lemma {:induction false} FirstAmpersandOfJoin(a: string, b: string)
    requires '&' !in a && |b| > 0 && b[0] == '&'
    ensures FirstAmpersand(a + b) == |a|
  {
    if a != [] {
      assert (a + b)[1..] == a[1..] + b;
      FirstAmpersandOfJoin(a[1..], b);
    }
  }

  /** For one base URL, symbols without `&` are recovered from the URL:
      two configurations give the same URL only when they are the same. */
  lemma KlineUrlInjective(baseUrl: string, s1: string, i1: string, s2: string, i2: string)
    requires '&' !in s1 && '&' !in s2
    requires KlineUrl(baseUrl, s1, i1) == KlineUrl(baseUrl, s2, i2)
    ensures s1 == s2 && i1 == i2
  {
    var n := |baseUrl| + |KlinePath|;
    var u := KlineUrl(baseUrl, s1, i1);
    assert u[n..] == s1 + (IntervalParam + i1);
    assert u[n..] == s2 + (IntervalParam + i2);
    FirstAmpersandOfJoin(s1, IntervalParam + i1);
    FirstAmpersandOfJoin(s2, IntervalParam + i2);
    assert s1 == u[n..][..|s1|];
    assert s2 == u[n..][..|s2|];
    assert i1 == u[|u| - |i1|..];
  }

  /** Without escaping, an `&` in the symbol lets two different
      configurations request the same URL. */
  lemma UnescapedSymbolsCollide()
    ensures KlineUrl("", "A&interval=1m", "5m") == KlineUrl("", "A", "1m&interval=5m")
  {
  }

  /** What a single HTTP round trip can end with: a body, which is `None`
      when it is not a JSON object of the response's shape (an error
      envelope without `data`, say), or a transport failure. */
  datatype Transport = Delivered(body: Option<WireRequest>) | TransportFailed

  datatype FetchError = TransportError | Decode(error: DecodeError)

  /** `.json::<Request>()`: a body of the wrong shape fails as `Malformed`,
      one of the right shape decodes as `DecodeRequest` does. */
  function DecodeBody(body: Option<WireRequest>, conv: Conversions): (r: Result<Request, DecodeError>)
    ensures r.Ok? <==> body.Some? && DecodeRequest(body.value, conv).Ok?
    ensures body.None? ==> r == Err(Malformed)
    ensures body.Some? ==> r == DecodeRequest(body.value, conv)
  {
    match body
    case None => Err(Malformed)
    case Some(w) => DecodeRequest(w, conv)
  }

  /** `make_request`: one GET of the kline URL (`get` is the transport's
      answer), then decoding of the body; either error is returned, nothing
      is decoded partially. */
  function MakeRequest(api: Api, get: string -> Transport, conv: Conversions): (r: Result<Request, FetchError>)
    ensures var answer := get(KlineUrl(api.baseUrl, api.symbol, api.interval));
            (r.Ok? <==> answer.Delivered? && DecodeBody(answer.body, conv).Ok?)
            && (r.Ok? ==> r.value == DecodeBody(answer.body, conv).value)
            && (answer.TransportFailed? ==> r == Err(TransportError))
            && (answer.Delivered? && r.Err? ==> r == Err(Decode(DecodeBody(answer.body, conv).error)))
  {
    match get(KlineUrl(api.baseUrl, api.symbol, api.interval))
    case TransportFailed => Err(TransportError)
    case Delivered(body) =>
      match DecodeBody(body, conv)
      case Ok(req) => Ok(req)
      case Err(e) => Err(Decode(e))
  }
}
