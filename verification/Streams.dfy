/** Length-prefixed messages on a byte stream, for any message format. */
module Streams {
  import opened Prelude

  type Byte = b: int | 0 <= b < 256

  type Bytes = seq<Byte>

  /** One attempt to read a message from the front of a stream. */
  datatype Parsed<M> = Frame(m: M, rest: Bytes) | Short | Bad

  /** What a reader gets from a stream that ends: the messages, what is left, and whether it stopped on bad input. */
  datatype Decoded<M> = Decoded(messages: seq<M>, rest: Bytes, bad: bool)

  ghost predicate Shrinks<M>(parse: Bytes -> Parsed<M>) {
    forall s :: parse(s).Frame? ==> |parse(s).rest| < |s|
  }

  /** Reading inverts writing on the messages `ok`, nothing else is read, and a cut message is recognised as cut. */
  ghost predicate IsCodec<M(!new)>(enc: M -> Bytes, parse: Bytes -> Parsed<M>, ok: M -> bool) {
    && Shrinks(parse)
    && (forall m, t :: ok(m) ==> parse(enc(m) + t) == Frame(m, t))
    && (forall s :: parse(s).Frame? ==> ok(parse(s).m) && s == enc(parse(s).m) + parse(s).rest)
    && (forall m, n :: ok(m) && 0 <= n < |enc(m)| ==> parse(enc(m)[..n]) == Short)
    && parse([]) == Short
  }

  ghost function EncodeAll<M>(enc: M -> Bytes, ms: seq<M>): (s: Bytes) {
    if ms == [] then [] else enc(ms[0]) + EncodeAll(enc, ms[1..])
  }

  ghost function Decode<M>(parse: Bytes -> Parsed<M>, s: Bytes): (d: Decoded<M>)
    requires Shrinks(parse)
    decreases |s|
  {
    match parse(s)
    case Short => Decoded([], s, false)
    case Bad => Decoded([], s, true)
    case Frame(m, rest) =>
      var d := Decode(parse, rest);
      d.(messages := [m] + d.messages)
  }

  lemma DecodeStep<M>(parse: Bytes -> Parsed<M>, s: Bytes)
    requires Shrinks(parse)
    ensures var d := Decode(parse, s);
            match parse(s)
            case Short => d.messages == [] && !d.bad
            case Bad => d.messages == [] && d.bad
            case Frame(m, rest) => d.messages == [m] + Decode(parse, rest).messages && d.bad == Decode(parse, rest).bad
  {
  }

  /** Whole messages followed by a cut one are read back exactly. */
  lemma {:induction false} DecodeInvertsEncode<M(!new)>(
    enc: M -> Bytes, parse: Bytes -> Parsed<M>, ok: M -> bool, ms: seq<M>, cut: Bytes)
    requires IsCodec(enc, parse, ok) && (forall m :: m in ms ==> ok(m)) && parse(cut) == Short
    ensures Decode(parse, EncodeAll(enc, ms) + cut) == Decoded(ms, cut, false)
  {
    if ms == [] {
      assert EncodeAll(enc, ms) + cut == cut;
    } else {
      DecodeInvertsEncode(enc, parse, ok, ms[1..], cut);
      var tail := EncodeAll(enc, ms[1..]) + cut;
      Assoc(enc(ms[0]), EncodeAll(enc, ms[1..]), cut);
      assert EncodeAll(enc, ms) + cut == enc(ms[0]) + tail;
      assert ok(ms[0]) && parse(enc(ms[0]) + tail) == Frame(ms[0], tail);
      assert ms == [ms[0]] + ms[1..];
    }
  }

  /** Whatever the stream, the messages read are exactly those written at its front. */
  lemma {:induction false} EncodeInvertsDecode<M(!new)>(enc: M -> Bytes, parse: Bytes -> Parsed<M>, ok: M -> bool,
                                                        s: Bytes)
    requires IsCodec(enc, parse, ok)
    ensures var d := Decode(parse, s);
            && s == EncodeAll(enc, d.messages) + d.rest
            && (forall m :: m in d.messages ==> ok(m))
            && parse(d.rest) == (if d.bad then Bad else Short)
    decreases |s|
  {
    match parse(s)
    case Short => assert EncodeAll(enc, []) + s == s;
    case Bad => assert EncodeAll(enc, []) + s == s;
    case Frame(m, rest) =>
      EncodeInvertsDecode(enc, parse, ok, rest);
      var e := Decode(parse, rest);
      assert s == enc(m) + rest;
      EncodeAllCons(enc, m, e.messages);
      Assoc(enc(m), EncodeAll(enc, e.messages), e.rest);
  }

  lemma EncodeAllCons<M>(enc: M -> Bytes, m: M, ms: seq<M>)
    ensures EncodeAll(enc, [m] + ms) == enc(m) + EncodeAll(enc, ms)
  {
    var all := [m] + ms;
    assert all[0] == m && all[1..] == ms;
  }

  lemma {:induction false} EncodeAllAppend<M>(enc: M -> Bytes, ms: seq<M>, more: seq<M>)
    ensures EncodeAll(enc, ms + more) == EncodeAll(enc, ms) + EncodeAll(enc, more)
  {
    if ms == [] {
      assert ms + more == more;
      assert EncodeAll(enc, ms) + EncodeAll(enc, more) == EncodeAll(enc, more);
    } else {
      var m, rest := ms[0], ms[1..];
      assert ms == [m] + rest;
      EncodeAllAppend(enc, rest, more);
      Assoc([m], rest, more);
      EncodeAllCons(enc, m, rest + more);
      EncodeAllCons(enc, m, rest);
      Assoc(enc(m), EncodeAll(enc, rest), EncodeAll(enc, more));
    }
  }

  /** A stream cut anywhere is whole messages and a cut one; `k` counts the whole ones. */
  lemma {:induction false} CutStream<M>(enc: M -> Bytes, ms: seq<M>, n: nat) returns (k: nat, cut: Bytes)
    requires n <= |EncodeAll(enc, ms)|
    ensures k <= |ms| && EncodeAll(enc, ms)[..n] == EncodeAll(enc, ms[..k]) + cut
    ensures k == |ms| ==> cut == []
    ensures k < |ms| ==> |cut| < |enc(ms[k])| && cut == enc(ms[k])[..|cut|]
  {
    if ms == [] {
      k, cut := 0, [];
    } else if n < |enc(ms[0])| {
      k, cut := 0, enc(ms[0])[..n];
      assert ms[..0] == [];
    } else {
      var j, rest := CutStream(enc, ms[1..], n - |enc(ms[0])|);
      k, cut := j + 1, rest;
      assert ms[..k][1..] == ms[1..][..j];
      assert ms[..k][0] == ms[0];
    }
  }

  /** A stream cut anywhere gives a prefix of the messages, as long as the cut allows, and never looks bad. */
  lemma CutStreamDecodes<M(!new)>(enc: M -> Bytes, parse: Bytes -> Parsed<M>, ok: M -> bool, ms: seq<M>, n: nat)
    requires IsCodec(enc, parse, ok) && (forall m :: m in ms ==> ok(m)) && n <= |EncodeAll(enc, ms)|
    ensures var d := Decode(parse, EncodeAll(enc, ms)[..n]);
            && !d.bad && d.messages <= ms
            && |EncodeAll(enc, d.messages)| <= n
            && (|d.messages| < |ms| ==> n < |EncodeAll(enc, ms[..|d.messages| + 1])|)
  {
    var k, cut := CutStream(enc, ms, n);
    if k < |ms| {
      assert ok(ms[k]);
      assert parse(enc(ms[k])[..|cut|]) == Short;
      EncodeAllAppend(enc, ms[..k], [ms[k]]);
      assert ms[..k + 1] == ms[..k] + [ms[k]];
      assert EncodeAll(enc, [ms[k]]) == enc(ms[k]) + EncodeAll(enc, []);
    }
    DecodeInvertsEncode(enc, parse, ok, ms[..k], cut);
  }
}
