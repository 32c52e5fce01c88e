/**
 * The wire format of the encode/decode library: what every message looks like, and which byte strings
 * are messages.
 */
module Codec {
  import opened Platform

  /**
   * An encodable argument, as the bytes of its C++ object. `Arr` is `Array<T>` with `sizeof(T) == width`;
   * `Items` is the vector of label-score pairs, both 32 bits wide.
   */
  datatype Value =
    | Fixed(bytes: seq<byte>)
    | Str(chars: seq<byte>)
    | Arr(width: nat, elems: seq<seq<byte>>)
    | Items(pairs: seq<Pair>)

  datatype Pair = Pair(first: seq<byte>, second: seq<byte>)

  /** What a decoder is asked for. An `Array` must be handed in empty. */
  datatype Type = TFixed(width: nat) | TStr | TArr(width: nat, vacant: bool)

  const PAIR_WIDTH := 4

  predicate AllWide(elems: seq<seq<byte>>, width: nat) {
    forall e :: e in elems ==> |e| == width
  }

  /** What the C++ type of the value guarantees: sizes fit `size_t`, elements have their type's width. */
  predicate WellFormed(v: Value) {
    match v
    case Fixed(_) => true
    case Str(chars) => |chars| < SIZE_T_MODULUS
    case Arr(width, elems) => width > 0 && |elems| < SIZE_T_MODULUS && AllWide(elems, width)
    case Items(pairs) =>
      && 2 * |pairs| < SIZE_T_MODULUS
      && (forall p :: p in pairs ==> |p.first| == PAIR_WIDTH && |p.second| == PAIR_WIDTH)
  }

  /** What the encoder accepts: no zero-width object and no empty array. */
  predicate Encodable(v: Value) {
    && WellFormed(v)
    && (v.Fixed? ==> v.bytes != [])
    && (v.Arr? ==> v.elems != [])
  }

  predicate HasType(v: Value, t: Type) {
    && WellFormed(v)
    && match t
       case TFixed(width) => v.Fixed? && 0 < |v.bytes| == width
       case TStr => v.Str?
       case TArr(width, vacant) => vacant && v.Arr? && v.width == width
  }

  predicate HaveTypes(vs: seq<Value>, ts: seq<Type>) {
    |vs| == |ts| && forall i :: 0 <= i < |vs| ==> HasType(vs[i], ts[i])
  }

  // ---- Little-endian numbers ----

  function Power256(k: nat): (r: nat)
    ensures r > 0
  {
    if k == 0 then 1 else 256 * Power256(k - 1)
  }

  function ToLittleEndian(n: nat, k: nat): (r: seq<byte>)
    ensures |r| == k
    decreases k
  {
    if k == 0 then [] else [(n % 256) as byte] + ToLittleEndian(n / 256, k - 1)
  }

  function FromLittleEndian(b: seq<byte>): (r: nat)
    ensures r < Power256(|b|)
  {
    if b == [] then 0 else b[0] as nat + 256 * FromLittleEndian(b[1..])
  }

  lemma {:induction false} NumberRoundTrip(n: nat, k: nat)
    requires n < Power256(k)
    ensures FromLittleEndian(ToLittleEndian(n, k)) == n
    decreases k
  {
    if k > 0 {
      NumberRoundTrip(n / 256, k - 1);
      assert ToLittleEndian(n, k)[1..] == ToLittleEndian(n / 256, k - 1);
    }
  }

  lemma LowestByte(low: nat, high: nat)
    requires low < 256
    ensures (low + 256 * high) % 256 == low && (low + 256 * high) / 256 == high
  {
  }

  lemma {:induction false} BytesRoundTrip(b: seq<byte>)
    ensures ToLittleEndian(FromLittleEndian(b), |b|) == b
  {
    if b != [] {
      BytesRoundTrip(b[1..]);
      LowestByte(b[0] as nat, FromLittleEndian(b[1..]));
      assert b == [b[0]] + b[1..];
    }
  }

  lemma SizeTHolds()
    ensures Power256(SIZE_T_BYTES) == SIZE_T_MODULUS
  {
    assert Power256(4) == 0x1_0000_0000;
    assert Power256(8) == 0x1_0000_0000 * Power256(4);
  }

  /** A `size_t` in memory. */
  function SizeBytes(n: nat): (r: seq<byte>)
    ensures |r| == SIZE_T_BYTES
  {
    ToLittleEndian(n, SIZE_T_BYTES)
  }

  lemma SizeRoundTrip(n: nat, b: seq<byte>)
    requires n < SIZE_T_MODULUS && |b| == SIZE_T_BYTES
    ensures SizeBytes(n) == b <==> FromLittleEndian(b) == n
    ensures FromLittleEndian(b) < SIZE_T_MODULUS
  {
    SizeTHolds();
    NumberRoundTrip(n, SIZE_T_BYTES);
    BytesRoundTrip(b);
  }

  // ---- Encoding ----

  function Flat(elems: seq<seq<byte>>): seq<byte> {
    if elems == [] then [] else elems[0] + Flat(elems[1..])
  }

  function Firsts(pairs: seq<Pair>): (r: seq<seq<byte>>)
    ensures |r| == |pairs|
    ensures forall i :: 0 <= i < |r| ==> r[i] == pairs[i].first
  {
    seq(|pairs|, i requires 0 <= i < |pairs| => pairs[i].first)
  }

  function Seconds(pairs: seq<Pair>): (r: seq<seq<byte>>)
    ensures |r| == |pairs|
    ensures forall i :: 0 <= i < |r| ==> r[i] == pairs[i].second
  {
    seq(|pairs|, i requires 0 <= i < |pairs| => pairs[i].second)
  }

  function Encoding(v: Value): seq<byte> {
    match v
    case Fixed(bytes) => bytes
    case Str(chars) => SizeBytes(|chars|) + chars
    case Arr(_, elems) => SizeBytes(|elems|) + Flat(elems)
    case Items(pairs) => SizeBytes(2 * |pairs|) + (Flat(Firsts(pairs)) + Flat(Seconds(pairs)))
  }

  function Payload(vs: seq<Value>): seq<byte> {
    if vs == [] then [] else Encoding(vs[0]) + Payload(vs[1..])
  }

  /** A message is the payload followed by the payload's length. */
  function Message(vs: seq<Value>): seq<byte> {
    Payload(vs) + SizeBytes(|Payload(vs)|)
  }

  lemma {:induction false} FlatAppend(a: seq<seq<byte>>, b: seq<seq<byte>>)
    ensures Flat(a + b) == Flat(a) + Flat(b)
  {
    if a == [] {
      assert a + b == b;
    } else {
      FlatAppend(a[1..], b);
      assert (a + b)[1..] == a[1..] + b;
      assert Flat(a + b) == a[0] + (Flat(a[1..]) + Flat(b));
    }
  }

  lemma FlatSnoc(a: seq<seq<byte>>, e: seq<byte>)
    ensures Flat(a + [e]) == Flat(a) + e
  {
    FlatAppend(a, [e]);
    assert Flat([e]) == e + Flat([]);
  }

  /** How a value comes back: items as one array, all labels followed by all scores. */
  function AsDecoded(v: Value): Value {
    match v
    case Items(pairs) => Arr(PAIR_WIDTH, Firsts(pairs) + Seconds(pairs))
    case _ => v
  }

  function AllAsDecoded(vs: seq<Value>): (r: seq<Value>)
    ensures |r| == |vs|
    ensures forall i :: 0 <= i < |vs| ==> r[i] == AsDecoded(vs[i])
  {
    seq(|vs|, i requires 0 <= i < |vs| => AsDecoded(vs[i]))
  }

  /** The type whose decoder reads the value back. */
  function TypeOf(v: Value): Type {
    match v
    case Fixed(bytes) => TFixed(|bytes|)
    case Str(_) => TStr
    case Arr(width, _) => TArr(width, true)
    case Items(_) => TArr(PAIR_WIDTH, true)
  }

  function TypesOf(vs: seq<Value>): (r: seq<Type>)
    ensures |r| == |vs|
    ensures forall i :: 0 <= i < |vs| ==> r[i] == TypeOf(vs[i])
  {
    seq(|vs|, i requires 0 <= i < |vs| => TypeOf(vs[i]))
  }

  lemma LabelsAndScoresAreWide(pairs: seq<Pair>)
    requires WellFormed(Items(pairs))
    ensures AllWide(Firsts(pairs) + Seconds(pairs), PAIR_WIDTH)
  {
    var all := Firsts(pairs) + Seconds(pairs);
    forall i | 0 <= i < |all|
      ensures |all[i]| == PAIR_WIDTH
    {
      assert pairs[if i < |pairs| then i else i - |pairs|] in pairs;
    }
  }

  lemma DecodedIsSameBytes(v: Value)
    requires Encodable(v)
    ensures HasType(AsDecoded(v), TypeOf(v)) && Encoding(AsDecoded(v)) == Encoding(v)
  {
    if v.Items? {
      FlatAppend(Firsts(v.pairs), Seconds(v.pairs));
      LabelsAndScoresAreWide(v.pairs);
    }
  }

  lemma {:induction false} DecodedIsSamePayload(vs: seq<Value>)
    requires forall v :: v in vs ==> Encodable(v)
    ensures HaveTypes(AllAsDecoded(vs), TypesOf(vs)) && Payload(AllAsDecoded(vs)) == Payload(vs)
  {
    forall i | 0 <= i < |vs|
      ensures HasType(AllAsDecoded(vs)[i], TypesOf(vs)[i])
    {
      DecodedIsSameBytes(vs[i]);
    }
    if vs != [] {
      DecodedIsSameBytes(vs[0]);
      DecodedIsSamePayload(vs[1..]);
      assert AllAsDecoded(vs)[1..] == AllAsDecoded(vs[1..]);
    }
  }

  // ---- Decoding ----

  datatype Parsed<T> = Parsed(value: T, rest: seq<byte>) | Rejected

  function ParseBytes(n: nat, s: seq<byte>): Parsed<seq<byte>> {
    if n <= |s| then Parsed(s[..n], s[n..]) else Rejected
  }

  function ParseSize(s: seq<byte>): Parsed<nat> {
    match ParseBytes(SIZE_T_BYTES, s)
    case Parsed(b, rest) => Parsed(FromLittleEndian(b), rest)
    case Rejected => Rejected
  }

  function ParseElems(width: nat, n: nat, s: seq<byte>): Parsed<seq<seq<byte>>>
    decreases n
  {
    if n == 0 then Parsed([], s) else
    match ParseBytes(width, s)
    case Rejected => Rejected
    case Parsed(e, rest) =>
      match ParseElems(width, n - 1, rest)
      case Rejected => Rejected
      case Parsed(es, left) => Parsed([e] + es, left)
  }

  function ParseOne(t: Type, s: seq<byte>): Parsed<Value> {
    match t
    case TFixed(width) =>
      if width == 0 then Rejected else
      (match ParseBytes(width, s)
       case Parsed(b, rest) => Parsed(Fixed(b), rest)
       case Rejected => Rejected)
    case TStr =>
      (match ParseSize(s)
       case Rejected => Rejected
       case Parsed(n, rest) =>
         match ParseBytes(n, rest)
         case Parsed(b, left) => Parsed(Str(b), left)
         case Rejected => Rejected)
    case TArr(width, vacant) =>
      if !vacant || width == 0 then Rejected else
      (match ParseSize(s)
       case Rejected => Rejected
       case Parsed(n, rest) =>
         match ParseElems(width, n, rest)
         case Parsed(es, left) => Parsed(Arr(width, es), left)
         case Rejected => Rejected)
  }

  function ParseAll(ts: seq<Type>, s: seq<byte>): Parsed<seq<Value>> {
    if ts == [] then Parsed([], s) else
    match ParseOne(ts[0], s)
    case Rejected => Rejected
    case Parsed(v, rest) =>
      match ParseAll(ts[1..], rest)
      case Rejected => Rejected
      case Parsed(vs, left) => Parsed([v] + vs, left)
  }

  /** The whole message: values, then a trailer that ends the buffer and counts the bytes before it. */
  function Decoded(ts: seq<Type>, s: seq<byte>): Parsed<seq<Value>> {
    match ParseAll(ts, s)
    case Rejected => Rejected
    case Parsed(vs, rest) =>
      match ParseSize(rest)
      case Rejected => Rejected
      case Parsed(n, left) =>
        if left == [] && n + SIZE_T_BYTES == |s| then Parsed(vs, left) else Rejected
  }

  // ---- Decoding is exactly the inverse of encoding ----

  lemma ParseSizeExact(s: seq<byte>, n: nat, rest: seq<byte>)
    requires n < SIZE_T_MODULUS
    ensures ParseSize(s) == Parsed(n, rest) <==> s == SizeBytes(n) + rest
    ensures ParseSize(s).Parsed? ==> ParseSize(s).value < SIZE_T_MODULUS
  {
    if SIZE_T_BYTES <= |s| {
      SizeRoundTrip(n, s[..SIZE_T_BYTES]);
      assert s == s[..SIZE_T_BYTES] + s[SIZE_T_BYTES..];
      if s == SizeBytes(n) + rest {
        assert s[..SIZE_T_BYTES] == SizeBytes(n) && s[SIZE_T_BYTES..] == rest;
      }
    }
  }

  /** Taking `e` off the front of `s`. */
  lemma FrontSplit(s: seq<byte>, e: seq<byte>, tail: seq<byte>)
    ensures s == e + tail <==> |e| <= |s| && s[..|e|] == e && s[|e|..] == tail
  {
    if |e| <= |s| {
      assert s == s[..|e|] + s[|e|..];
    }
  }

  /** Element lists that begin with `e`. */
  lemma ElemsOfCons(width: nat, e: seq<byte>, more: seq<seq<byte>>, rest: seq<byte>)
    ensures AllWide([e] + more, width) <==> |e| == width && AllWide(more, width)
    ensures Flat([e] + more) + rest == e + (Flat(more) + rest)
  {
    var es := [e] + more;
    assert es[1..] == more;
    assert forall i :: 0 <= i < |more| ==> es[i + 1] == more[i];
    assert forall i :: 0 < i < |es| ==> es[i] == more[i - 1];
  }

  /** Reading one element more. */
  lemma ParseElemsOfCons(width: nat, n: nat, s: seq<byte>, e: seq<byte>, more: seq<seq<byte>>, rest: seq<byte>)
    ensures ParseElems(width, n + 1, s) == Parsed([e] + more, rest) <==>
            width <= |s| && s[..width] == e && ParseElems(width, n, s[width..]) == Parsed(more, rest)
  {
    if width <= |s| && ParseElems(width, n, s[width..]).Parsed? {
      var es := [s[..width]] + ParseElems(width, n, s[width..]).value;
      assert es[0] == s[..width] && es[1..] == ParseElems(width, n, s[width..]).value;
      assert ([e] + more)[0] == e && ([e] + more)[1..] == more;
    }
  }

  /** What is right for `n` elements is right for one more. */
  lemma OneMoreElem(width: nat, n: nat, s: seq<byte>, e: seq<byte>, more: seq<seq<byte>>, rest: seq<byte>)
    requires width <= |s| ==>
               (ParseElems(width, n, s[width..]) == Parsed(more, rest) <==>
                |more| == n && AllWide(more, width) && s[width..] == Flat(more) + rest)
    ensures ParseElems(width, n + 1, s) == Parsed([e] + more, rest) <==>
            |more| == n && AllWide([e] + more, width) && s == Flat([e] + more) + rest
  {
    ElemsOfCons(width, e, more, rest);
    ParseElemsOfCons(width, n, s, e, more, rest);
    FrontSplit(s, e, Flat(more) + rest);
  }

  lemma {:induction false} ParseElemsExact(width: nat, n: nat, s: seq<byte>, es: seq<seq<byte>>, rest: seq<byte>)
    ensures ParseElems(width, n, s) == Parsed(es, rest) <==>
            |es| == n && AllWide(es, width) && s == Flat(es) + rest
    decreases n
  {
    if n > 0 && es != [] {
      if width <= |s| {
        ParseElemsExact(width, n - 1, s[width..], es[1..], rest);
      }
      OneMoreElem(width, n - 1, s, es[0], es[1..], rest);
      assert [es[0]] + es[1..] == es;
    }
  }

  lemma ParseStringExact(s: seq<byte>, chars: seq<byte>, rest: seq<byte>)
    ensures ParseOne(TStr, s) == Parsed(Str(chars), rest) <==>
            |chars| < SIZE_T_MODULUS && s == Encoding(Str(chars)) + rest
  {
    ParseSizeExact(s, 0, []);
    if |chars| < SIZE_T_MODULUS {
      ParseSizeExact(s, |chars|, chars + rest);
      assert Encoding(Str(chars)) + rest == SizeBytes(|chars|) + (chars + rest);
      assert (chars + rest)[..|chars|] == chars && (chars + rest)[|chars|..] == rest;
    }
    if ParseOne(TStr, s) == Parsed(Str(chars), rest) {
      var left := ParseSize(s).rest;
      assert left == chars + rest;
    }
  }

  lemma ParseArrayExact(width: nat, s: seq<byte>, elems: seq<seq<byte>>, rest: seq<byte>)
    requires width > 0
    ensures ParseOne(TArr(width, true), s) == Parsed(Arr(width, elems), rest) <==>
            |elems| < SIZE_T_MODULUS && AllWide(elems, width) && s == Encoding(Arr(width, elems)) + rest
  {
    ParseSizeExact(s, 0, []);
    if |elems| < SIZE_T_MODULUS {
      ParseSizeExact(s, |elems|, Flat(elems) + rest);
      assert Encoding(Arr(width, elems)) + rest == SizeBytes(|elems|) + (Flat(elems) + rest);
    }
    if ParseSize(s).Parsed? {
      ParseElemsExact(width, ParseSize(s).value, ParseSize(s).rest, elems, rest);
    }
    if |elems| < SIZE_T_MODULUS {
      ParseElemsExact(width, |elems|, Flat(elems) + rest, elems, rest);
    }
  }

  lemma ParseOneExact(t: Type, s: seq<byte>, v: Value, rest: seq<byte>)
    ensures ParseOne(t, s) == Parsed(v, rest) <==> HasType(v, t) && s == Encoding(v) + rest
  {
    match t
    case TFixed(width) =>
      if v.Fixed? && |v.bytes| == width {
        assert (v.bytes + rest)[..width] == v.bytes && (v.bytes + rest)[width..] == rest;
      }
    case TStr =>
      if v.Str? {
        ParseStringExact(s, v.chars, rest);
      }
    case TArr(width, vacant) =>
      if v.Arr? && v.width == width > 0 && vacant {
        ParseArrayExact(width, s, v.elems, rest);
      }
  }

  lemma HaveTypesOfCons(v: Value, vs: seq<Value>, ts: seq<Type>)
    requires ts != []
    ensures HaveTypes([v] + vs, ts) <==> HasType(v, ts[0]) && HaveTypes(vs, ts[1..])
  {
    var all := [v] + vs;
    if |all| == |ts| {
      assert forall i :: 0 < i < |ts| ==> all[i] == vs[i - 1] && ts[i] == ts[1..][i - 1];
      assert forall i :: 0 <= i < |vs| ==> vs[i] == all[i + 1] && ts[1..][i] == ts[i + 1];
    }
  }

  lemma PayloadOfCons(v: Value, vs: seq<Value>, rest: seq<byte>)
    ensures Payload([v] + vs) + rest == Encoding(v) + (Payload(vs) + rest)
  {
    assert ([v] + vs)[1..] == vs;
  }

  lemma {:induction false} ParseAllExact(ts: seq<Type>, s: seq<byte>, vs: seq<Value>, rest: seq<byte>)
    ensures ParseAll(ts, s) == Parsed(vs, rest) <==> HaveTypes(vs, ts) && s == Payload(vs) + rest
    decreases |ts|
  {
    if ts != [] && vs != [] {
      var v, more := vs[0], vs[1..];
      assert vs == [v] + more;
      HaveTypesOfCons(v, more, ts);
      PayloadOfCons(v, more, rest);
      var tail := Payload(more) + rest;
      ParseOneExact(ts[0], s, v, tail);
      ParseAllExact(ts[1..], tail, more, rest);
      if ParseAll(ts, s) == Parsed(vs, rest) {
        ParseAllExact(ts[1..], ParseOne(ts[0], s).rest, more, rest);
      }
    }
  }

  lemma MessagesDecode(ts: seq<Type>, vs: seq<Value>)
    requires HaveTypes(vs, ts) && |Message(vs)| < SIZE_T_MODULUS
    ensures Decoded(ts, Message(vs)) == Parsed(vs, [])
  {
    var n := |Payload(vs)|;
    ParseAllExact(ts, Message(vs), vs, SizeBytes(n));
    ParseSizeExact(SizeBytes(n), n, []);
    assert SizeBytes(n) + [] == SizeBytes(n);
  }

  lemma TrailerIsAllThatIsLeft(rest: seq<byte>)
    requires ParseSize(rest).Parsed? && ParseSize(rest).rest == []
    ensures rest == SizeBytes(ParseSize(rest).value)
  {
    var n := ParseSize(rest).value;
    ParseSizeExact(rest, 0, []);
    ParseSizeExact(rest, n, []);
    assert SizeBytes(n) + [] == SizeBytes(n);
  }

  lemma OnlyMessagesDecode(ts: seq<Type>, s: seq<byte>)
    requires Decoded(ts, s).Parsed?
    ensures HaveTypes(Decoded(ts, s).value, ts) && s == Message(Decoded(ts, s).value)
    ensures Decoded(ts, s).rest == []
  {
    var vs, rest := ParseAll(ts, s).value, ParseAll(ts, s).rest;
    ParseAllExact(ts, s, vs, rest);
    TrailerIsAllThatIsLeft(rest);
  }

  /** No false accept and no false reject: a buffer decodes to `vs` exactly when it is the message of `vs`. */
  lemma DecodesExactlyMessages(ts: seq<Type>, s: seq<byte>, vs: seq<Value>)
    requires |s| < SIZE_T_MODULUS
    ensures Decoded(ts, s) == Parsed(vs, []) <==> HaveTypes(vs, ts) && s == Message(vs)
  {
    if Decoded(ts, s).Parsed? {
      OnlyMessagesDecode(ts, s);
    }
    if HaveTypes(vs, ts) && s == Message(vs) {
      MessagesDecode(ts, vs);
    }
  }

  /** Decoding an encoded message with matching types gives back what was encoded. */
  lemma RoundTrip(vs: seq<Value>)
    requires forall v :: v in vs ==> Encodable(v)
    requires |Message(vs)| < SIZE_T_MODULUS
    ensures Decoded(TypesOf(vs), Message(vs)) == Parsed(AllAsDecoded(vs), [])
  {
    DecodedIsSamePayload(vs);
    DecodesExactlyMessages(TypesOf(vs), Message(vs), AllAsDecoded(vs));
  }

  function TotalWidth(ts: seq<Type>): nat
    requires forall t :: t in ts ==> t.TFixed?
  {
    if ts == [] then 0 else ts[0].width + TotalWidth(ts[1..])
  }

  lemma {:induction false} FixedPayloadWidth(vs: seq<Value>, ts: seq<Type>)
    requires HaveTypes(vs, ts) && forall t :: t in ts ==> t.TFixed?
    ensures |Payload(vs)| == TotalWidth(ts)
  {
    if vs != [] {
      FixedPayloadWidth(vs[1..], ts[1..]);
      assert HasType(vs[0], ts[0]);
    }
  }

  /** Reading a message with fixed-width types of another total width is always rejected. */
  lemma OtherWidthIsRejected(vs: seq<Value>, ts: seq<Type>)
    requires |Message(vs)| < SIZE_T_MODULUS
    requires forall t :: t in ts ==> t.TFixed?
    requires TotalWidth(ts) != |Payload(vs)|
    ensures Decoded(ts, Message(vs)).Rejected?
  {
    var d := Decoded(ts, Message(vs));
    if d.Parsed? {
      OnlyMessagesDecode(ts, Message(vs));
      FixedPayloadWidth(d.value, ts);
    }
  }
}
