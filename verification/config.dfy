/**
 * The overlay configuration: the frame colour decoded from a JSON value and
 * the clock switch with its default. Reading the file, expanding `~` and the
 * JSON parse itself are not modelled; the already-parsed `RawConfig` (or its
 * absence when the text is not valid JSON) is the input.
 */
module Config {
  import W = Wrappers
  import Json

  /** How the frame around the screen is coloured. */
  datatype FrameColor =
    | None
    | Rgba(r: real, g: real, b: real, a: real)
    | Random
    | WorstResource

  /** The effective configuration. */
  datatype Config = Config(frameColor: FrameColor, showClock: bool)

  /** The configuration file as deserialised: every field optional. */
  datatype RawConfig = RawConfig(frameColor: W.Option<Json.Value>, showClock: W.Option<bool>)

  /** Three draws of the random generator, each in [0, 1). */
  type Draws = (real, real, real)

  predicate UnitInterval(x: real) {
    0.0 <= x < 1.0
  }

  /** The `filter_map(as_f64)` of an array: its numbers, in order. */
  function Numbers(items: seq<Json.Value>): (r: seq<real>)
    ensures |r| <= |items|
  {
    if items == [] then []
    else
      match Json.AsF64(items[0])
      case Some(x) => [x] + Numbers(items[1..])
      case None => Numbers(items[1..])
  }

  predicate AllNumbers(items: seq<Json.Value>) {
    forall i :: 0 <= i < |items| ==> items[i].Number?
  }

  /** Filtering keeps every element exactly when every element is a number,
      and then keeps each in place. */
  lemma {:induction false} NumbersKeepAll(items: seq<Json.Value>)
    ensures |Numbers(items)| == |items| <==> AllNumbers(items)
    ensures AllNumbers(items) ==> forall i :: 0 <= i < |items| ==> Numbers(items)[i] == items[i].n
  {
    if items != [] {
      NumbersKeepAll(items[1..]);
      if AllNumbers(items) {
        assert AllNumbers(items[1..]) by {
          forall i | 0 <= i < |items[1..]| ensures items[1..][i].Number? {
            assert items[1..][i] == items[i + 1];
          }
        }
        forall i | 0 <= i < |items| ensures Numbers(items)[i] == items[i].n {
          if i > 0 { assert items[1..][i - 1] == items[i]; }
        }
      } else if items[0].Number? {
        var k :| 0 <= k < |items| && !items[k].Number?;
        assert !items[1..][k - 1].Number?;
      }
    }
  }

  /** `FrameColor::from_json`; `rng` holds the draws used for "random". */
  function FromJson(value: W.Option<Json.Value>, rng: Draws): (r: FrameColor)
    ensures !r.Random?
    ensures value == W.Some(Json.Null) ==> r == None
    ensures value.None? ==> r == None
    ensures r == WorstResource <==> value == W.Some(Json.String("worst-resource"))
    ensures r.Rgba? ==> value.Some? && (value.value.String? || (value.value.Array? && |value.value.items| == 4))
    ensures value.Some? && value.value.String? && value.value.s == "random" ==> r.Rgba? && r.a == 1.0
    ensures value.Some? && (value.value.Bool? || value.value.Number? || value.value.Object?) ==> r == None
    ensures value.Some? && value.value.Array? && |value.value.items| != 4 ==> r == None
  {
    match value
    case Some(Null) => None
    case Some(String(s)) =>
      if s == "random" then Rgba(rng.0, rng.1, rng.2, 1.0)
      else if s == "worst-resource" then WorstResource
      else None
    case Some(Array(items)) =>
      if |items| == 4 then
        var vals := Numbers(items);
        if |vals| == 4 then Rgba(vals[0], vals[1], vals[2], vals[3]) else None
      else None
    case _ => None
  }

  /** A four-element array of numbers is an RGBA colour with the components in order. */
  lemma FourNumbersAreRgba(items: seq<Json.Value>, rng: Draws)
    requires |items| == 4 && AllNumbers(items)
    ensures FromJson(W.Some(Json.Array(items)), rng) == Rgba(items[0].n, items[1].n, items[2].n, items[3].n)
  {
    NumbersKeepAll(items);
  }

  /** A four-element array with any non-number is rejected. */
  lemma NonNumberIsRejected(items: seq<Json.Value>, rng: Draws)
    requires |items| == 4 && !AllNumbers(items)
    ensures FromJson(W.Some(Json.Array(items)), rng) == None
  {
    NumbersKeepAll(items);
  }

  /** Every string other than the two keywords is rejected. */
  lemma UnknownStringIsRejected(s: string, rng: Draws)
    requires s != "random" && s != "worst-resource"
    ensures FromJson(W.Some(Json.String(s)), rng) == None
  {
  }

  /** A random frame colour is opaque and its components come from the draws. */
  lemma RandomIsOpaque(rng: Draws)
    requires UnitInterval(rng.0) && UnitInterval(rng.1) && UnitInterval(rng.2)
    ensures var c := FromJson(W.Some(Json.String("random")), rng);
      c.Rgba? && c.a == 1.0 && UnitInterval(c.r) && UnitInterval(c.g) && UnitInterval(c.b)
  {
  }

  /** The defaulting of `Config::load_from_file`: `raw` is the deserialised
      file, absent when the text is not a valid configuration (an unreadable
      file reads as `{}`, which deserialises to all fields absent). */
  function Load(raw: W.Option<RawConfig>, rng: Draws): (c: Config)
    ensures c.showClock <==> !(raw.Some? && raw.value.showClock == W.Some(false))
    ensures raw.None? ==> c.frameColor == None
    ensures raw.Some? ==> c.frameColor == FromJson(raw.value.frameColor, rng)
  {
    var r := if raw.Some? then raw.value else RawConfig(W.None, W.None);
    Config(FromJson(r.frameColor, rng), if r.showClock.Some? then r.showClock.value else true)
  }
}
