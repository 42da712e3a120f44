/**
  The save codec of dataManager.go: `MarshalGameState` writes the seven
  fields of a `gameState` one after the other through a gob encoder, and
  `UnmarshalGameState` reads them back in the same order, returning the
  first error. The gob byte format is a foreign library; here it is an
  abstract per-field `Codec` that is only assumed to round-trip one field.

  encoding/gob transmits exported struct fields only. `upgradeState.owned`
  is unexported, so as the type is written a saved list carries the
  descriptions and the loaded entries have `owned == 0`. `Layout` selects
  between that declaration and the evidently intended one with an
  exported ownership count.
 */
module SaveCodec {
  import opened Wrappers
  import opened Catalog
  import opened GameState

  newtype byte = x: int | 0 <= x < 256

  /** The fields of a `gameState`, named after its struct fields. */
  datatype Slot = LastLogged | Yen | Fr | Veg | Sales | Kitchen | Ingred {
    predicate IsNumber() {
      LastLogged? || Yen? || Fr? || Veg?
    }
  }

  /** The order in which the fields are encoded and decoded. */
  const Order: seq<Slot> := [LastLogged, Yen, Fr, Veg, Sales, Kitchen, Ingred]

  /** One value of the stream: a float64 or a `[]upgradeState`. */
  datatype Field = Number(x: real) | Entries(items: seq<UpgradeState>)

  /** `f` has the Go type of the field `s`; gob refuses to decode into any other. */
  predicate Fits(s: Slot, f: Field) {
    if s.IsNumber() then f.Number? else f.Entries?
  }

  /** The value of field `s` of `g`. */
  function Read(g: GameState, s: Slot): (f: Field)
    ensures Fits(s, f)
  {
    match s
    case LastLogged => Number(g.lastLogged)
    case Yen => Number(g.yen)
    case Fr => Number(g.fr)
    case Veg => Number(g.veg)
    case Sales => Entries(g.sales)
    case Kitchen => Entries(g.kitchen)
    case Ingred => Entries(g.ingred)
  }

  /** `g` with field `s` overwritten by `f`, as `dec.Decode(&g.<field>)` does. */
  function Write(g: GameState, s: Slot, f: Field): (r: GameState)
    requires Fits(s, f)
    ensures Read(r, s) == f
    ensures forall t :: t != s ==> Read(r, t) == Read(g, t)
  {
    match s
    case LastLogged => g.(lastLogged := f.x)
    case Yen => g.(yen := f.x)
    case Fr => g.(fr := f.x)
    case Veg => g.(veg := f.x)
    case Sales => g.(sales := f.items)
    case Kitchen => g.(kitchen := f.items)
    case Ingred => g.(ingred := f.items)
  }

  /** Two records that agree on every field of `Order` are equal: the seven fields are all of a `gameState`. */
  lemma SlotsDetermine(a: GameState, b: GameState)
    requires forall k :: 0 <= k < |Order| ==> Read(a, Order[k]) == Read(b, Order[k])
    ensures a == b
  {
    assert Read(a, Order[0]) == Read(b, Order[0]);
    assert Read(a, Order[1]) == Read(b, Order[1]);
    assert Read(a, Order[2]) == Read(b, Order[2]);
    assert Read(a, Order[3]) == Read(b, Order[3]);
    assert Read(a, Order[4]) == Read(b, Order[4]);
    assert Read(a, Order[5]) == Read(b, Order[5]);
    assert Read(a, Order[6]) == Read(b, Order[6]);
  }

  /** How `upgradeState` is declared: as written (`owned` unexported) or with the count exported. */
  datatype Layout = AsWritten | OwnedExported

  /**
    The part of an ownership list that gob puts on the wire under `layout`:
    gob carries exported struct fields only, so as written each entry's
    count is dropped and arrives as 0.
   */
  function Transmitted(layout: Layout, us: seq<UpgradeState>): (r: seq<UpgradeState>)
    ensures |r| == |us|
    ensures forall k :: 0 <= k < |us| ==> r[k].description == us[k].description
    ensures layout == AsWritten ==> forall k :: 0 <= k < |r| ==> r[k].owned == 0
    ensures layout == OwnedExported ==> r == us
  {
    match layout
    case AsWritten => seq(|us|, k requires 0 <= k < |us| => UpgradeState(us[k].description, 0))
    case OwnedExported => us
  }

  /** The record as far as gob can see it under `layout`. */
  function Seen(layout: Layout, g: GameState): GameState {
    g.(sales := Transmitted(layout, g.sales),
       kitchen := Transmitted(layout, g.kitchen),
       ingred := Transmitted(layout, g.ingred))
  }

  /** An abstract gob: how one field is written, and how one field is read off the front of a stream. */
  datatype Codec = Codec(
    encode: Field -> Result<seq<byte>, string>,
    decode: seq<byte> -> Result<(Field, seq<byte>), string>)

  /** Decoding the bytes of an encoded field gives the field back and leaves what follows unread. */
  ghost predicate Lawful(c: Codec) {
    forall f, rest :: c.encode(f).Success? ==> c.decode(c.encode(f).value + rest) == Success((f, rest))
  }

  /** The errors the save codec returns. */
  datatype SaveError = EncodeError(reason: string) | DecodeError(reason: string) | TypeMismatch(slot: Slot)

  /** Encodes `fs` in order, stopping at the first field the codec cannot encode. */
  function EncodeAll(c: Codec, fs: seq<Field>): (r: Result<seq<byte>, string>)
    ensures r.Success? <==> forall i :: 0 <= i < |fs| ==> c.encode(fs[i]).Success?
    ensures r.Failure? ==>
      exists i :: 0 <= i < |fs| && c.encode(fs[i]) == Failure(r.error)
        && forall j :: 0 <= j < i ==> c.encode(fs[j]).Success?
  {
    if |fs| == 0 then Success([])
    else
      match c.encode(fs[0])
      case Failure(e) => Failure(e)
      case Success(head) =>
        match EncodeAll(c, fs[1..])
        case Failure(e) =>
          var i :| 0 <= i < |fs[1..]| && c.encode(fs[1..][i]) == Failure(e)
            && forall j :: 0 <= j < i ==> c.encode(fs[1..][j]).Success?;
          assert c.encode(fs[i + 1]) == Failure(e);
          Failure(e)
        case Success(tail) => Success(head + tail)
  }

  /** The seven fields gob is handed, in `Order`. */
  function Fields(layout: Layout, g: GameState): (fs: seq<Field>)
    ensures |fs| == |Order|
    ensures forall k :: 0 <= k < |Order| ==> fs[k] == Read(Seen(layout, g), Order[k])
  {
    seq(|Order|, k requires 0 <= k < |Order| => Read(Seen(layout, g), Order[k]))
  }

  /** `MarshalGameState`: the seven fields in `Order`, or the error of the first one that fails. */
  function MarshalGameState(c: Codec, layout: Layout, g: GameState): (r: Result<seq<byte>, SaveError>)
    ensures r.Success? <==> forall k :: 0 <= k < |Order| ==> c.encode(Read(Seen(layout, g), Order[k])).Success?
    ensures r.Failure? ==> r.error.EncodeError?
    ensures r.Failure? ==>
      exists k :: 0 <= k < |Order| && c.encode(Read(Seen(layout, g), Order[k])) == Failure(r.error.reason)
        && forall j :: 0 <= j < k ==> c.encode(Read(Seen(layout, g), Order[j])).Success?
  {
    match EncodeAll(c, Fields(layout, g))
    case Success(bytes) => Success(bytes)
    case Failure(e) => Failure(EncodeError(e))
  }

  /** The bytes gob produces for field `s` of `g`. */
  function Encoded(c: Codec, layout: Layout, g: GameState, s: Slot): seq<byte>
    requires c.encode(Read(Seen(layout, g), s)).Success?
  {
    c.encode(Read(Seen(layout, g), s)).value
  }

  /** A successful encoding is the first field's bytes followed by the rest's. */
  lemma EncodeAllCons(c: Codec, fs: seq<Field>)
    requires |fs| > 0
    requires EncodeAll(c, fs).Success?
    ensures c.encode(fs[0]).Success? && EncodeAll(c, fs[1..]).Success?
    ensures EncodeAll(c, fs).value == c.encode(fs[0]).value + EncodeAll(c, fs[1..]).value
  {
  }

  /** A successful save is the encodings of lastLogged, yen, fr, veg, sales, kitchen and ingred, back to back. */
  lemma MarshalOrder(c: Codec, layout: Layout, g: GameState)
    requires MarshalGameState(c, layout, g).Success?
    ensures forall s: Slot :: c.encode(Read(Seen(layout, g), s)).Success?
    ensures MarshalGameState(c, layout, g).value ==
      Encoded(c, layout, g, LastLogged) + Encoded(c, layout, g, Yen) + Encoded(c, layout, g, Fr)
      + Encoded(c, layout, g, Veg) + Encoded(c, layout, g, Sales) + Encoded(c, layout, g, Kitchen)
      + Encoded(c, layout, g, Ingred)
  {
    var fs := Fields(layout, g);
    forall s: Slot ensures c.encode(Read(Seen(layout, g), s)).Success? {
      match s
      case LastLogged => assert Order[0] == s;
      case Yen => assert Order[1] == s;
      case Fr => assert Order[2] == s;
      case Veg => assert Order[3] == s;
      case Sales => assert Order[4] == s;
      case Kitchen => assert Order[5] == s;
      case Ingred => assert Order[6] == s;
    }
    var e0, e1, e2, e3, e4, e5, e6 :=
      Encoded(c, layout, g, LastLogged), Encoded(c, layout, g, Yen), Encoded(c, layout, g, Fr),
      Encoded(c, layout, g, Veg), Encoded(c, layout, g, Sales), Encoded(c, layout, g, Kitchen),
      Encoded(c, layout, g, Ingred);
    assert fs[0..] == fs;
    EncodeAllCons(c, fs[0..]);
    assert fs[0..][1..] == fs[1..];
    EncodeAllCons(c, fs[1..]);
    assert fs[1..][1..] == fs[2..];
    EncodeAllCons(c, fs[2..]);
    assert fs[2..][1..] == fs[3..];
    EncodeAllCons(c, fs[3..]);
    assert fs[3..][1..] == fs[4..];
    EncodeAllCons(c, fs[4..]);
    assert fs[4..][1..] == fs[5..];
    EncodeAllCons(c, fs[5..]);
    assert fs[5..][1..] == fs[6..];
    EncodeAllCons(c, fs[6..]);
    assert fs[6..][1..] == [];
    assert EncodeAll(c, fs).value == e0 + (e1 + (e2 + (e3 + (e4 + (e5 + (e6 + []))))));
    assert e6 + [] == e6;
  }

  /**
    The outcome of `UnmarshalGameState`: the record after decoding, how many
    fields (a prefix of `Order`) were overwritten, and the error, if any.
   */
  datatype Decoded = Decoded(state: GameState, filled: nat, err: Option<SaveError>)

  /** Decodes the fields `Order[k..]` from `data` into `g`, stopping at the first error. */
  function DecodeFrom(c: Codec, g: GameState, data: seq<byte>, k: nat): (r: Decoded)
    requires k <= |Order|
    ensures k <= r.filled <= |Order|
    ensures r.err.None? <==> r.filled == |Order|
    ensures forall j :: 0 <= j < k ==> Read(r.state, Order[j]) == Read(g, Order[j])
    ensures forall j :: r.filled <= j < |Order| ==> Read(r.state, Order[j]) == Read(g, Order[j])
    ensures r.filled > k ==> c.decode(data).Success? && Read(r.state, Order[k]) == c.decode(data).value.0
    decreases |Order| - k
  {
    if k == |Order| then Decoded(g, k, None)
    else
      match c.decode(data)
      case Failure(e) => Decoded(g, k, Some(DecodeError(e)))
      case Success((f, rest)) =>
        if Fits(Order[k], f) then DecodeFrom(c, Write(g, Order[k], f), rest, k + 1)
        else Decoded(g, k, Some(TypeMismatch(Order[k])))
  }

  /**
    `UnmarshalGameState`: overwrites the fields of `g` in `Order` from
    `data`; on the first error every later field keeps its old value, and
    without an error all seven are overwritten. The first field is read off
    the front of `data`. Each field's decode is taken to be all-or-nothing,
    so the failing field keeps its old value too.
   */
  function UnmarshalGameState(c: Codec, g: GameState, data: seq<byte>): (r: Decoded)
    ensures r.filled <= |Order|
    ensures r.err.None? <==> r.filled == |Order|
    ensures forall j :: r.filled <= j < |Order| ==> Read(r.state, Order[j]) == Read(g, Order[j])
    ensures c.decode(data).Failure? ==> r == Decoded(g, 0, Some(DecodeError(c.decode(data).error)))
    ensures c.decode(data).Success? && !Fits(LastLogged, c.decode(data).value.0) ==>
      r == Decoded(g, 0, Some(TypeMismatch(LastLogged)))
    ensures r.filled > 0 ==> c.decode(data).Success? && Read(r.state, LastLogged) == c.decode(data).value.0
  {
    DecodeFrom(c, g, data, 0)
  }

  /** Decoding the encoding of `Fields(layout, g)[k..]` overwrites exactly those fields with what gob saw. */
  lemma {:induction false} DecodeEncoded(c: Codec, layout: Layout, g: GameState, z: GameState, k: nat, rest: seq<byte>)
    requires Lawful(c)
    requires k <= |Order|
    requires EncodeAll(c, Fields(layout, g)[k..]).Success?
    ensures var r := DecodeFrom(c, z, EncodeAll(c, Fields(layout, g)[k..]).value + rest, k);
      && r.filled == |Order| && r.err == None
      && forall j :: k <= j < |Order| ==> Read(r.state, Order[j]) == Read(Seen(layout, g), Order[j])
    decreases |Order| - k
  {
    if k < |Order| {
      var fs := Fields(layout, g)[k..];
      var head := c.encode(fs[0]).value;
      assert fs[1..] == Fields(layout, g)[k + 1..];
      var tail := EncodeAll(c, fs[1..]).value;
      assert EncodeAll(c, fs).value + rest == head + (tail + rest);
      assert c.decode(head + (tail + rest)) == Success((fs[0], tail + rest));
      var z' := Write(z, Order[k], fs[0]);
      DecodeEncoded(c, layout, g, z', k + 1, rest);
    }
  }

  /** `z` with the fields `Order[i..k]` taken from `s`, written one after the other. */
  function Fill(z: GameState, s: GameState, i: nat, k: nat): (r: GameState)
    requires i <= k <= |Order|
    ensures forall j :: i <= j < k ==> Read(r, Order[j]) == Read(s, Order[j])
    ensures forall j :: 0 <= j < i || k <= j < |Order| ==> Read(r, Order[j]) == Read(z, Order[j])
    decreases k - i
  {
    if i == k then z else Fill(Write(z, Order[i], Read(s, Order[i])), s, i + 1, k)
  }

  /**
    Decoding the encoding of the fields `Order[i..k]` followed by any bytes
    writes those fields with what gob saw and carries on at field k with the
    bytes that follow.
   */
  lemma {:induction false} DecodePrefix(c: Codec, layout: Layout, g: GameState, z: GameState, i: nat, k: nat, tail: seq<byte>)
    requires Lawful(c)
    requires i <= k <= |Order|
    requires EncodeAll(c, Fields(layout, g)[i..k]).Success?
    ensures DecodeFrom(c, z, EncodeAll(c, Fields(layout, g)[i..k]).value + tail, i)
         == DecodeFrom(c, Fill(z, Seen(layout, g), i, k), tail, k)
    decreases k - i
  {
    var fs := Fields(layout, g)[i..k];
    if i == k {
      assert fs == [];
      assert EncodeAll(c, fs).value + tail == tail;
    } else {
      var head := c.encode(fs[0]).value;
      assert fs[1..] == Fields(layout, g)[i + 1..k];
      var rest := EncodeAll(c, fs[1..]).value;
      assert EncodeAll(c, fs).value + tail == head + (rest + tail);
      assert c.decode(head + (rest + tail)) == Success((fs[0], rest + tail));
      var z' := Write(z, Order[i], fs[0]);
      DecodePrefix(c, layout, g, z', i + 1, k, tail);
    }
  }

  /**
    A save cut after k good fields and followed by bytes the codec cannot
    decode loads as: the first k fields hold the saved values, the error is
    that decode's error, and field k and every later field are untouched.
   */
  lemma DecodeStopsAtFirstError(c: Codec, layout: Layout, g: GameState, z: GameState, k: nat, bad: seq<byte>)
    requires Lawful(c)
    requires k < |Order|
    requires EncodeAll(c, Fields(layout, g)[..k]).Success?
    requires c.decode(bad).Failure?
    ensures var r := UnmarshalGameState(c, z, EncodeAll(c, Fields(layout, g)[..k]).value + bad);
      && r.filled == k
      && r.err == Some(DecodeError(c.decode(bad).error))
      && (forall j :: 0 <= j < k ==> Read(r.state, Order[j]) == Read(Seen(layout, g), Order[j]))
      && (forall j :: k <= j < |Order| ==> Read(r.state, Order[j]) == Read(z, Order[j]))
  {
    assert Fields(layout, g)[..k] == Fields(layout, g)[0..k];
    DecodePrefix(c, layout, g, z, 0, k, bad);
  }

  /**
    A save cut after k good fields and followed by a well-formed value of the
    wrong Go type loads as: the first k fields hold the saved values, the
    error names field k, and field k and every later field are untouched.
   */
  lemma DecodeStopsAtTypeMismatch(c: Codec, layout: Layout, g: GameState, z: GameState, k: nat, bad: seq<byte>)
    requires Lawful(c)
    requires k < |Order|
    requires EncodeAll(c, Fields(layout, g)[..k]).Success?
    requires c.decode(bad).Success? && !Fits(Order[k], c.decode(bad).value.0)
    ensures var r := UnmarshalGameState(c, z, EncodeAll(c, Fields(layout, g)[..k]).value + bad);
      && r.filled == k
      && r.err == Some(TypeMismatch(Order[k]))
      && (forall j :: 0 <= j < k ==> Read(r.state, Order[j]) == Read(Seen(layout, g), Order[j]))
      && (forall j :: k <= j < |Order| ==> Read(r.state, Order[j]) == Read(z, Order[j]))
  {
    assert Fields(layout, g)[..k] == Fields(layout, g)[0..k];
    DecodePrefix(c, layout, g, z, 0, k, bad);
  }

  /**
    Loading a save (with any bytes after it) restores what gob saw of the
    saved record, whatever record `z` it is decoded into in this model (the
    program itself decodes into a zero record).
   */
  lemma RoundTrip(c: Codec, layout: Layout, g: GameState, z: GameState, rest: seq<byte>)
    requires Lawful(c)
    requires MarshalGameState(c, layout, g).Success?
    ensures UnmarshalGameState(c, z, MarshalGameState(c, layout, g).value + rest) == Decoded(Seen(layout, g), |Order|, None)
  {
    assert Fields(layout, g)[0..] == Fields(layout, g);
    DecodeEncoded(c, layout, g, z, 0, rest);
    var r := UnmarshalGameState(c, z, MarshalGameState(c, layout, g).value + rest);
    SlotsDetermine(r.state, Seen(layout, g));
  }

  /**
    As `upgradeState` is written, a round trip restores the four numbers and
    every list's descriptions in order, and every loaded count is 0.
   */
  lemma RoundTripAsWritten(c: Codec, g: GameState, z: GameState)
    requires Lawful(c)
    requires MarshalGameState(c, AsWritten, g).Success?
    ensures var r := UnmarshalGameState(c, z, MarshalGameState(c, AsWritten, g).value);
      && r.err == None
      && r.state.lastLogged == g.lastLogged && r.state.yen == g.yen && r.state.fr == g.fr && r.state.veg == g.veg
      && |r.state.sales| == |g.sales| && |r.state.kitchen| == |g.kitchen| && |r.state.ingred| == |g.ingred|
      && (forall k :: 0 <= k < |g.sales| ==> r.state.sales[k] == UpgradeState(g.sales[k].description, 0))
      && (forall k :: 0 <= k < |g.kitchen| ==> r.state.kitchen[k] == UpgradeState(g.kitchen[k].description, 0))
      && (forall k :: 0 <= k < |g.ingred| ==> r.state.ingred[k] == UpgradeState(g.ingred[k].description, 0))
  {
    RoundTrip(c, AsWritten, g, z, []);
    assert MarshalGameState(c, AsWritten, g).value + [] == MarshalGameState(c, AsWritten, g).value;
  }

  /**
    As written, a round trip gives back the saved record exactly when no
    upgrade of it is owned: any purchase is lost on reload.
   */
  lemma RoundTripExactIffUnowned(c: Codec, g: GameState, z: GameState, saved: seq<byte>)
    requires Lawful(c)
    requires MarshalGameState(c, AsWritten, g) == Success(saved)
    ensures UnmarshalGameState(c, z, saved).state == g <==> AllUnowned(g)
  {
    RoundTripAsWritten(c, g, z);
    var r := UnmarshalGameState(c, z, saved).state;
    if AllUnowned(g) {
      assert r.sales == g.sales;
      assert r.kitchen == g.kitchen;
      assert r.ingred == g.ingred;
    }
  }

  /** One owned "Hire a worker" in the Sales list comes back from a save as not owned. */
  lemma PurchaseLostOnReload(c: Codec, z: GameState)
    requires Lawful(c)
    requires MarshalGameState(c, AsWritten, GameState(0.0, 10.0, 0.0, 0.0, [UpgradeState("Hire a worker", 1)], [], [])).Success?
    ensures var g := GameState(0.0, 10.0, 0.0, 0.0, [UpgradeState("Hire a worker", 1)], [], []);
      UnmarshalGameState(c, z, MarshalGameState(c, AsWritten, g).value).state.sales == [UpgradeState("Hire a worker", 0)]
  {
    var g := GameState(0.0, 10.0, 0.0, 0.0, [UpgradeState("Hire a worker", 1)], [], []);
    RoundTripAsWritten(c, g, z);
  }

  /** A fresh record from `initGameState` survives a round trip unchanged, even as written. */
  lemma InitialRoundTrip(c: Codec, tabs: seq<Tab>, z: GameState)
    requires Lawful(c)
    requires MarshalGameState(c, AsWritten, Initial(tabs)).Success?
    ensures UnmarshalGameState(c, z, MarshalGameState(c, AsWritten, Initial(tabs)).value)
         == Decoded(Initial(tabs), |Order|, None)
  {
    RoundTripAsWritten(c, Initial(tabs), z);
    RoundTripExactIffUnowned(c, Initial(tabs), z, MarshalGameState(c, AsWritten, Initial(tabs)).value);
  }

  /** With the ownership count exported, a round trip restores the record exactly. */
  lemma RoundTripExact(c: Codec, g: GameState, z: GameState)
    requires Lawful(c)
    requires MarshalGameState(c, OwnedExported, g).Success?
    ensures UnmarshalGameState(c, z, MarshalGameState(c, OwnedExported, g).value) == Decoded(g, |Order|, None)
  {
    RoundTrip(c, OwnedExported, g, z, []);
    assert MarshalGameState(c, OwnedExported, g).value + [] == MarshalGameState(c, OwnedExported, g).value;
    assert Seen(OwnedExported, g) == g;
  }
}
