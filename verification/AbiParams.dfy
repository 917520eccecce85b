/** Data made of 32-byte heads followed by tails, and where each of them is found again. */
module HeadTail {
  import opened ByteStrings

  datatype Part = Part(head: Bytes, tail: Bytes)

  function Heads(parts: seq<Part>): Bytes {
    if parts == [] then [] else parts[0].head + Heads(parts[1..])
  }

  function Tails(parts: seq<Part>): Bytes {
    if parts == [] then [] else parts[0].tail + Tails(parts[1..])
  }

  function Join(parts: seq<Part>): Bytes {
    Heads(parts) + Tails(parts)
  }

  ghost predicate WordHeads(parts: seq<Part>) {
    forall i :: 0 <= i < |parts| ==> |parts[i].head| == 32
  }

  /** `chunk` stands in `data` at `pos`. */
  ghost predicate At(data: Bytes, pos: nat, chunk: Bytes) {
    pos + |chunk| <= |data| && data[pos..pos + |chunk|] == chunk
  }

  lemma AtSplit(data: Bytes, pos: nat, a: Bytes, b: Bytes)
    requires At(data, pos, a + b)
    ensures At(data, pos, a) && At(data, pos + |a|, b)
  {
    var c := data[pos..pos + |a| + |b|];
    assert c[..|a|] == a && c[|a|..] == b;
  }

  lemma {:induction false} HeadsLength(parts: seq<Part>)
    requires WordHeads(parts)
    ensures |Heads(parts)| == 32 * |parts|
  {
    if parts != [] { HeadsLength(parts[1..]); }
  }

  /** The place of the i-th tail, when the first one is at `start`: behind all earlier ones. */
  function Offset(parts: seq<Part>, start: nat, i: nat): nat
    requires i <= |parts|
  {
    if i == 0 then start else Offset(parts, start, i - 1) + |parts[i - 1].tail|
  }

  lemma {:induction false} OffsetShift(parts: seq<Part>, start: nat, i: nat)
    requires 0 < i <= |parts|
    ensures Offset(parts, start, i) == Offset(parts[1..], start + |parts[0].tail|, i - 1)
  {
    if i > 1 { OffsetShift(parts, start, i - 1); }
  }

  lemma {:induction false} HeadAt(parts: seq<Part>, data: Bytes, pos: nat, i: nat, at: nat)
    requires WordHeads(parts) && i < |parts| && at == pos + 32 * i
    requires At(data, pos, Heads(parts))
    ensures At(data, at, parts[i].head)
    decreases i
  {
    AtSplit(data, pos, parts[0].head, Heads(parts[1..]));
    if i > 0 { HeadAt(parts[1..], data, pos + 32, i - 1, at); }
  }

  lemma {:induction false} TailAt(parts: seq<Part>, data: Bytes, start: nat, i: nat)
    requires i < |parts|
    requires At(data, start, Tails(parts))
    ensures At(data, Offset(parts, start, i), parts[i].tail)
    decreases i
  {
    AtSplit(data, start, parts[0].tail, Tails(parts[1..]));
    if i > 0 {
      OffsetShift(parts, start, i);
      TailAt(parts[1..], data, start + |parts[0].tail|, i - 1);
    }
  }

  /** Head i is the i-th word, and tail i stands behind all heads and earlier tails. */
  lemma JoinedAt(parts: seq<Part>, i: nat)
    requires WordHeads(parts) && i < |parts|
    ensures At(Join(parts), 32 * i, parts[i].head)
    ensures At(Join(parts), Offset(parts, 32 * |parts|, i), parts[i].tail)
  {
    var data := Join(parts);
    HeadsLength(parts);
    assert data[0..|data|] == data;
    AtSplit(data, 0, Heads(parts), Tails(parts));
    HeadAt(parts, data, 0, i, 32 * i);
    TailAt(parts, data, 32 * |parts|, i);
  }
}

/** ABI parameter encoding as the section "Formal Specification of the Encoding" of the Solidity
    Contract ABI Specification defines it, for parameters that are either one 32-byte word or a
    dynamic byte string. Decoding is strict: it accepts only what encoding produces. */
module AbiParams {
  import opened Outcomes
  import opened ByteStrings
  import opened HeadTail

  datatype Kind = Word | Dynamic

  datatype Value = Static(word: Bytes) | Dyn(bytes: Bytes)

  ghost predicate WellFormed(vals: seq<Value>) {
    forall i :: 0 <= i < |vals| && vals[i].Static? ==> |vals[i].word| == 32
  }

  function KindOf(v: Value): Kind {
    if v.Static? then Word else Dynamic
  }

  function Kinds(vals: seq<Value>): (r: seq<Kind>)
    ensures |r| == |vals| && forall i :: 0 <= i < |r| ==> r[i] == KindOf(vals[i])
  {
    seq(|vals|, i requires 0 <= i < |vals| => KindOf(vals[i]))
  }

  /** The number of bytes up to the next multiple of 32. */
  function Padding(n: nat): (p: nat)
    ensures p < 32 && (n + p) % 32 == 0
  {
    (32 - n % 32) % 32
  }

  function Zeros(n: nat): (z: Bytes)
    ensures |z| == n && forall i :: 0 <= i < n ==> z[i] == 0
  {
    seq(n, _ => 0)
  }

  /** A number as one word. */
  function Uint(n: nat): (b: Bytes)
    ensures |b| == 32
  {
    BigEndian(n, 32)
  }

  /** A static value has no tail; a dynamic one is its length, its bytes and zeros up to a full word. */
  function Tail(v: Value): Bytes {
    match v
    case Static(_) => []
    case Dyn(b) => Uint(|b|) + (b + Zeros(Padding(|b|)))
  }

  /** The i-th head: the word itself, or the offset of the tail. */
  function Head(v: Value, offset: nat): Bytes {
    match v
    case Static(w) => w
    case Dyn(_) => Uint(offset)
  }

  /** Tails follow the heads in order, without gaps. */
  function TailOffset(vals: seq<Value>, i: nat): nat
    requires i <= |vals|
  {
    if i == 0 then 32 * |vals| else TailOffset(vals, i - 1) + |Tail(vals[i - 1])|
  }

  function Parts(vals: seq<Value>): (r: seq<Part>)
    ensures |r| == |vals|
    ensures forall i :: 0 <= i < |r| ==> r[i] == Part(Head(vals[i], TailOffset(vals, i)), Tail(vals[i]))
  {
    seq(|vals|, i requires 0 <= i < |vals| => Part(Head(vals[i], TailOffset(vals, i)), Tail(vals[i])))
  }

  function Encode(vals: seq<Value>): Bytes {
    Join(Parts(vals))
  }

  /** The bytes of a dynamic value whose length word is at `pos`, if it lies within the data and is
      padded with zeros. */
  function ReadDynamic(data: Bytes, pos: nat): Option<Bytes> {
    if pos + 32 > |data| then None
    else
      var n := FromBigEndian(data[pos..pos + 32]);
      var p := Padding(n);
      if pos + 32 + n + p > |data| then None
      else if data[pos + 32 + n..pos + 32 + n + p] != Zeros(p) then None
      else Some(data[pos + 32..pos + 32 + n])
  }

  function ReadValue(kind: Kind, data: Bytes, pos: nat): Option<Value> {
    if pos + 32 > |data| then None
    else
      var head := data[pos..pos + 32];
      match kind
      case Word => Some(Static(head))
      case Dynamic =>
        match ReadDynamic(data, FromBigEndian(head))
        case None => None
        case Some(b) => Some(Dyn(b))
  }

  /** The values from the i-th head on. */
  function ReadFrom(kinds: seq<Kind>, data: Bytes, i: nat): Option<seq<Value>>
    requires i <= |kinds|
    decreases |kinds| - i
  {
    if i == |kinds| then Some([])
    else
      match ReadValue(kinds[i], data, 32 * i)
      case None => None
      case Some(v) =>
        match ReadFrom(kinds, data, i + 1)
        case None => None
        case Some(vs) => Some([v] + vs)
  }

  /** Validated decoding: what was read must encode to the very same bytes. */
  function Decode(kinds: seq<Kind>, data: Bytes): Option<seq<Value>> {
    match ReadFrom(kinds, data, 0)
    case None => None
    case Some(vals) => if Encode(vals) == data then Some(vals) else None
  }

  // ---------------------------------------------------------------- where things are

  lemma PartsShape(vals: seq<Value>, i: nat)
    requires WellFormed(vals) && i <= |vals|
    ensures WordHeads(Parts(vals))
    ensures Offset(Parts(vals), 32 * |vals|, i) == TailOffset(vals, i)
  {
    if i > 0 { PartsShape(vals, i - 1); }
  }

  /** Where the specification puts things: head i is the i-th word, and a dynamic value's head points
      behind all heads and earlier tails, at its length, its bytes and its zero padding. */
  lemma Layout(vals: seq<Value>, i: nat)
    requires WellFormed(vals) && i < |vals|
    ensures At(Encode(vals), 32 * i, Head(vals[i], TailOffset(vals, i)))
    ensures At(Encode(vals), TailOffset(vals, i), Tail(vals[i]))
  {
    PartsShape(vals, i);
    JoinedAt(Parts(vals), i);
  }

  // ---------------------------------------------------------------- round trips

  /** The three fields of a dynamic tail are read back by their positions. */
  lemma FieldsAt(data: Bytes, pos: nat, w: Bytes, b: Bytes, p: nat)
    requires |w| == 32 && At(data, pos, w + (b + Zeros(p)))
    ensures pos + 32 + |b| + p <= |data|
    ensures data[pos..pos + 32] == w
    ensures data[pos + 32..pos + 32 + |b|] == b
    ensures data[pos + 32 + |b|..pos + 32 + |b| + p] == Zeros(p)
  {
    AtSplit(data, pos, w, b + Zeros(p));
    AtSplit(data, pos + 32, b, Zeros(p));
  }

  /** The number is read back from its word. */
  ghost predicate Fits(n: nat) {
    FromBigEndian(Uint(n)) == n
  }

  lemma PositionsFit(data: Bytes, n: nat)
    requires n <= |data| < Pow256(32)
    ensures Fits(n)
  {
    BigEndianRoundTrip(n, 32);
  }

  lemma ReadDynamicTail(data: Bytes, pos: nat, b: Bytes)
    requires At(data, pos, Tail(Dyn(b))) && Fits(|b|)
    ensures ReadDynamic(data, pos) == Some(b)
  {
    FieldsAt(data, pos, Uint(|b|), b, Padding(|b|));
  }

  lemma ReadValueEncoded(v: Value, data: Bytes, pos: nat, offset: nat)
    requires At(data, pos, Head(v, offset)) && At(data, offset, Tail(v))
    requires match v case Static(w) => |w| == 32 case Dyn(b) => Fits(offset) && Fits(|b|)
    ensures ReadValue(KindOf(v), data, pos) == Some(v)
  {
    if v.Dyn? { ReadDynamicTail(data, offset, v.bytes); }
  }

  lemma Unshift<T>(s: seq<T>, i: nat)
    requires i < |s|
    ensures [s[i]] + s[i + 1..] == s[i..]
  {
  }

  lemma ValueAt(vals: seq<Value>, i: nat)
    requires WellFormed(vals) && |Encode(vals)| < Pow256(32) && i < |vals|
    ensures ReadValue(KindOf(vals[i]), Encode(vals), 32 * i) == Some(vals[i])
  {
    Layout(vals, i);
    if vals[i].Dyn? {
      DynShorter(vals, i);
      PositionsFit(Encode(vals), |vals[i].bytes|);
      PositionsFit(Encode(vals), TailOffset(vals, i));
    }
    ReadValueEncoded(vals[i], Encode(vals), 32 * i, TailOffset(vals, i));
  }

  lemma {:induction false} ReadFromValues(vals: seq<Value>, data: Bytes, i: nat)
    requires i <= |vals|
    requires forall k :: 0 <= k < |vals| ==> ReadValue(KindOf(vals[k]), data, 32 * k) == Some(vals[k])
    ensures ReadFrom(Kinds(vals), data, i) == Some(vals[i..])
    decreases |vals| - i
  {
    if i < |vals| {
      assert Kinds(vals)[i] == KindOf(vals[i]);
      ReadFromValues(vals, data, i + 1);
      Unshift(vals, i);
    }
  }

  /** Decoding an encoding returns the values, whenever its offsets fit into a word. */
  lemma DecodeEncoded(vals: seq<Value>)
    requires WellFormed(vals) && |Encode(vals)| < Pow256(32)
    ensures Decode(Kinds(vals), Encode(vals)) == Some(vals)
  {
    forall k | 0 <= k < |vals| ensures ReadValue(KindOf(vals[k]), Encode(vals), 32 * k) == Some(vals[k]) {
      ValueAt(vals, k);
    }
    ReadFromValues(vals, Encode(vals), 0);
    assert vals[0..] == vals;
  }

  lemma KindsCons(v: Value, vs: seq<Value>, kind: Kind, kinds: seq<Kind>)
    requires KindOf(v) == kind && Kinds(vs) == kinds && WellFormed(vs) && (v.Static? ==> |v.word| == 32)
    ensures Kinds([v] + vs) == [kind] + kinds && WellFormed([v] + vs)
  {
  }

  lemma {:induction false} ReadFromShape(kinds: seq<Kind>, data: Bytes, i: nat)
    requires i <= |kinds| && ReadFrom(kinds, data, i).Some?
    ensures Kinds(ReadFrom(kinds, data, i).value) == kinds[i..]
    ensures WellFormed(ReadFrom(kinds, data, i).value)
    decreases |kinds| - i
  {
    if i < |kinds| {
      ReadFromShape(kinds, data, i + 1);
      var v := ReadValue(kinds[i], data, 32 * i).value;
      KindsCons(v, ReadFrom(kinds, data, i + 1).value, kinds[i], kinds[i + 1..]);
      Unshift(kinds, i);
    }
  }

  /** Strictness: whatever decodes is the encoding of what it decodes to. */
  lemma DecodedIsEncoded(kinds: seq<Kind>, data: Bytes)
    requires Decode(kinds, data).Some?
    ensures Kinds(Decode(kinds, data).value) == kinds && |Decode(kinds, data).value| == |kinds|
    ensures WellFormed(Decode(kinds, data).value)
    ensures Encode(Decode(kinds, data).value) == data
  {
    ReadFromShape(kinds, data, 0);
    assert kinds[0..] == kinds;
  }

  lemma FirstWord(kinds: seq<Kind>, data: Bytes)
    requires kinds != [] && kinds[0].Word? && Decode(kinds, data).Some?
    ensures |Decode(kinds, data).value| > 0
    ensures 32 <= |data| && Decode(kinds, data).value[0] == Static(data[0..32])
  {
  }

  lemma EncodeStartsWith(vals: seq<Value>)
    requires WellFormed(vals) && vals != [] && vals[0].Static?
    ensures |Encode(vals)| >= 32 && Encode(vals)[0..32] == vals[0].word
  {
    Layout(vals, 0);
  }

  /** A dynamic value is shorter than any encoding that contains it. */
  lemma DynShorter(vals: seq<Value>, i: nat)
    requires WellFormed(vals) && i < |vals| && vals[i].Dyn?
    ensures |vals[i].bytes| < |Encode(vals)|
  {
    Layout(vals, i);
  }
}
