/** The bytes of interchain token service messages, field by field, as the message structs declare them
    (contracts/interchain-token-service/src/abi.rs): type numbers, the order of the fields, the offsets of
    dynamic fields and their padding. */
module ItsWire {
  import opened Outcomes
  import opened ByteStrings
  import opened HeadTail
  import opened AbiParams
  import opened Utf8
  import opened ItsCodec

  /** A dynamic field: its length as a word, its bytes, and zeros up to a multiple of 32. */
  function Blob(b: Bytes): Bytes {
    BigEndian(|b|, 32) + (b + seq((32 - |b| % 32) % 32, _ => 0))
  }

  lemma BlobShape(b: Bytes)
    ensures var r := Blob(b);
            && |r| % 32 == 0 && |b| + 32 <= |r| < |b| + 64
            && r[..32] == BigEndian(|b|, 32) && r[32..32 + |b|] == b
            && forall i :: 32 + |b| <= i < |r| ==> r[i] == 0
  {
    PaddedLength(|b|);
    BlobPieces(BigEndian(|b|, 32), b, (32 - |b| % 32) % 32);
  }

  lemma PaddedLength(n: nat)
    ensures (32 + n + (32 - n % 32) % 32) % 32 == 0 && (32 - n % 32) % 32 < 32
  {
  }

  lemma BlobPieces(w: Bytes, b: Bytes, p: nat)
    requires |w| == 32
    ensures var r := w + (b + seq(p, _ => 0));
            |r| == 32 + |b| + p && r[..32] == w && r[32..32 + |b|] == b && forall i :: 32 + |b| <= i < |r| ==> r[i] == 0
  {
  }

  /** Six words followed by three dynamic fields. */
  function SixAndThree(w0: Bytes, w1: Bytes, w2: Bytes, w3: Bytes, w4: Bytes, w5: Bytes, x: Bytes, y: Bytes, z: Bytes): Bytes {
    w0 + w1 + w2 + w3 + w4 + w5 + (Blob(x) + Blob(y) + Blob(z))
  }

  /** A number, an id, two dynamic fields, a number and a dynamic field. */
  function TransferLike(n: nat, id: Bytes, x: Bytes, y: Bytes, number: nat, z: Bytes): Bytes {
    SixAndThree(BigEndian(n, 32), id, BigEndian(192, 32), BigEndian(192 + |Blob(x)|, 32), BigEndian(number, 32),
                BigEndian(192 + |Blob(x)| + |Blob(y)|, 32), x, y, z)
  }

  /** A number, an id, a number and three dynamic fields. */
  function LinkLike(n: nat, id: Bytes, number: nat, x: Bytes, y: Bytes, z: Bytes): Bytes {
    SixAndThree(BigEndian(n, 32), id, BigEndian(number, 32), BigEndian(192, 32), BigEndian(192 + |Blob(x)|, 32),
                BigEndian(192 + |Blob(x)| + |Blob(y)|, 32), x, y, z)
  }

  /** A transfer: type 0, token id, source address, destination address, amount, data. */
  function Transfer(tokenId: TokenId, source: Bytes, destination: Bytes, amount: nat, data: Bytes): Bytes {
    TransferLike(0, tokenId, source, destination, amount, data)
  }

  /** A token deployment: type 1, token id, name, symbol, decimals, minter. */
  function Deploy(tokenId: TokenId, name: Bytes, symbol: Bytes, decimals: nat, minter: Bytes): Bytes {
    TransferLike(1, tokenId, name, symbol, decimals, minter)
  }

  /** A token link: type 5, token id, token manager type, source token, destination token, parameters. */
  function Link(tokenId: TokenId, managerType: nat, source: Bytes, destination: Bytes, params: Bytes): Bytes {
    LinkLike(5, tokenId, managerType, source, destination, params)
  }

  /** A routed message: type 3 to the hub or 4 from it, chain name, nested message. */
  function Routed(messageType: nat, chain: Bytes, message: Bytes): Bytes {
    BigEndian(messageType, 32) + BigEndian(96, 32) + BigEndian(96 + |Blob(chain)|, 32) + (Blob(chain) + Blob(message))
  }

  /** Token metadata: type 6, token address, decimals. */
  function Metadata(address: Bytes, decimals: nat): Bytes {
    BigEndian(6, 32) + BigEndian(96, 32) + BigEndian(decimals, 32) + Blob(address)
  }

  // ---------------------------------------------------------------- parameter lists as bytes

  lemma TailIsBlob(b: Bytes)
    ensures Tail(Dyn(b)) == Blob(b)
  {
  }

  lemma HeadsThree(p: seq<Part>)
    requires |p| == 3
    ensures Heads(p) == p[0].head + p[1].head + p[2].head
    ensures Tails(p) == p[0].tail + p[1].tail + p[2].tail
  {
    assert p[1..][1..] == p[2..] && p[2..][1..] == [];
    assert Heads(p[2..]) == p[2].head + [] && Tails(p[2..]) == p[2].tail + [];
    assert Heads(p[1..]) == p[1].head + p[2].head && Tails(p[1..]) == p[1].tail + p[2].tail;
  }

  lemma {:induction false} HeadsConcat(a: seq<Part>, b: seq<Part>)
    ensures Heads(a + b) == Heads(a) + Heads(b) && Tails(a + b) == Tails(a) + Tails(b)
  {
    if a == [] { assert a + b == b; }
    else {
      assert (a + b)[0] == a[0] && (a + b)[1..] == a[1..] + b;
      HeadsConcat(a[1..], b);
    }
  }

  lemma HeadsSix(p: seq<Part>)
    requires |p| == 6
    ensures Heads(p) == p[0].head + p[1].head + p[2].head + (p[3].head + p[4].head + p[5].head)
    ensures Tails(p) == p[0].tail + p[1].tail + p[2].tail + (p[3].tail + p[4].tail + p[5].tail)
  {
    assert p == p[..3] + p[3..];
    HeadsConcat(p[..3], p[3..]);
    HeadsThree(p[..3]);
    HeadsThree(p[3..]);
  }

  function TransferShapeValues(w0: Bytes, w1: Bytes, x: Bytes, y: Bytes, w4: Bytes, z: Bytes): seq<Value> {
    [Static(w0), Static(w1), Dyn(x), Dyn(y), Static(w4), Dyn(z)]
  }

  lemma TransferOffsets(w0: Bytes, w1: Bytes, x: Bytes, y: Bytes, w4: Bytes, z: Bytes)
    ensures var v := TransferShapeValues(w0, w1, x, y, w4, z);
            TailOffset(v, 2) == 192 && TailOffset(v, 3) == 192 + |Blob(x)| && TailOffset(v, 5) == 192 + |Blob(x)| + |Blob(y)|
  {
    var v := TransferShapeValues(w0, w1, x, y, w4, z);
    TailIsBlob(x);
    TailIsBlob(y);
    assert TailOffset(v, 0) == 192 && TailOffset(v, 1) == 192 && TailOffset(v, 2) == 192;
    assert TailOffset(v, 3) == 192 + |Blob(x)|;
    assert TailOffset(v, 4) == 192 + |Blob(x)| + |Blob(y)|;
  }

  /** Three static and three dynamic parameters, dynamic ones in the places 2, 3 and 5. */
  lemma EncodeTransferShape(w0: Bytes, w1: Bytes, x: Bytes, y: Bytes, w4: Bytes, z: Bytes)
    requires |w0| == |w1| == |w4| == 32
    ensures Encode(TransferShapeValues(w0, w1, x, y, w4, z)) ==
              SixAndThree(w0, w1, BigEndian(192, 32), BigEndian(192 + |Blob(x)|, 32), w4,
                          BigEndian(192 + |Blob(x)| + |Blob(y)|, 32), x, y, z)
  {
    var v := TransferShapeValues(w0, w1, x, y, w4, z);
    var p := Parts(v);
    TransferOffsets(w0, w1, x, y, w4, z);
    TailIsBlob(x);
    TailIsBlob(y);
    TailIsBlob(z);
    var o3, o5 := BigEndian(192 + |Blob(x)|, 32), BigEndian(192 + |Blob(x)| + |Blob(y)|, 32);
    assert p[0] == Part(w0, []) && p[1] == Part(w1, []) && p[2] == Part(BigEndian(192, 32), Blob(x));
    assert p[3] == Part(o3, Blob(y)) && p[4] == Part(w4, []) && p[5] == Part(o5, Blob(z));
    HeadsSix(p);
    RegroupTransfer(w0, w1, BigEndian(192, 32), o3, w4, o5, Blob(x), Blob(y), Blob(z));
  }

  lemma RegroupTransfer(a: Bytes, b: Bytes, c: Bytes, d: Bytes, e: Bytes, f: Bytes, x: Bytes, y: Bytes, z: Bytes)
    ensures (a + b + c + (d + e + f)) + ([] + [] + x + (y + [] + z)) == a + b + c + d + e + f + (x + y + z)
  {
    assert [] + [] + x + (y + [] + z) == x + y + z;
    assert a + b + c + (d + e + f) == a + b + c + d + e + f;
  }

  function LinkShapeValues(w0: Bytes, w1: Bytes, w2: Bytes, x: Bytes, y: Bytes, z: Bytes): seq<Value> {
    [Static(w0), Static(w1), Static(w2), Dyn(x), Dyn(y), Dyn(z)]
  }

  lemma LinkOffsets(w0: Bytes, w1: Bytes, w2: Bytes, x: Bytes, y: Bytes, z: Bytes)
    ensures var v := LinkShapeValues(w0, w1, w2, x, y, z);
            TailOffset(v, 3) == 192 && TailOffset(v, 4) == 192 + |Blob(x)| && TailOffset(v, 5) == 192 + |Blob(x)| + |Blob(y)|
  {
    var v := LinkShapeValues(w0, w1, w2, x, y, z);
    TailIsBlob(x);
    TailIsBlob(y);
    assert TailOffset(v, 0) == 192 && TailOffset(v, 1) == 192 && TailOffset(v, 2) == 192 && TailOffset(v, 3) == 192;
    assert TailOffset(v, 4) == 192 + |Blob(x)|;
  }

  /** The same with the dynamic ones in the places 3, 4 and 5. */
  lemma EncodeLinkShape(w0: Bytes, w1: Bytes, w2: Bytes, x: Bytes, y: Bytes, z: Bytes)
    requires |w0| == |w1| == |w2| == 32
    ensures Encode(LinkShapeValues(w0, w1, w2, x, y, z)) ==
              SixAndThree(w0, w1, w2, BigEndian(192, 32), BigEndian(192 + |Blob(x)|, 32),
                          BigEndian(192 + |Blob(x)| + |Blob(y)|, 32), x, y, z)
  {
    var v := LinkShapeValues(w0, w1, w2, x, y, z);
    var p := Parts(v);
    LinkOffsets(w0, w1, w2, x, y, z);
    TailIsBlob(x);
    TailIsBlob(y);
    TailIsBlob(z);
    var o4, o5 := BigEndian(192 + |Blob(x)|, 32), BigEndian(192 + |Blob(x)| + |Blob(y)|, 32);
    assert p[0] == Part(w0, []) && p[1] == Part(w1, []) && p[2] == Part(w2, []);
    assert p[3] == Part(BigEndian(192, 32), Blob(x)) && p[4] == Part(o4, Blob(y)) && p[5] == Part(o5, Blob(z));
    HeadsSix(p);
    RegroupLink(w0, w1, w2, BigEndian(192, 32), o4, o5, Blob(x), Blob(y), Blob(z));
  }

  lemma RegroupLink(a: Bytes, b: Bytes, c: Bytes, d: Bytes, e: Bytes, f: Bytes, x: Bytes, y: Bytes, z: Bytes)
    ensures (a + b + c + (d + e + f)) + ([] + [] + [] + (x + y + z)) == a + b + c + d + e + f + (x + y + z)
  {
    assert [] + [] + [] + (x + y + z) == x + y + z;
    assert a + b + c + (d + e + f) == a + b + c + d + e + f;
  }

  lemma EncodeRoutedShape(w0: Bytes, x: Bytes, y: Bytes)
    requires |w0| == 32
    ensures Encode([Static(w0), Dyn(x), Dyn(y)]) ==
              w0 + BigEndian(96, 32) + BigEndian(96 + |Blob(x)|, 32) + (Blob(x) + Blob(y))
  {
    var v := [Static(w0), Dyn(x), Dyn(y)];
    TailIsBlob(x);
    TailIsBlob(y);
    assert TailOffset(v, 0) == 96 && TailOffset(v, 1) == 96 && TailOffset(v, 2) == 96 + |Blob(x)|;
    HeadsThree(Parts(v));
    assert [] + Blob(x) + Blob(y) == Blob(x) + Blob(y);
  }

  lemma EncodeMetadataShape(w0: Bytes, x: Bytes, w2: Bytes)
    requires |w0| == |w2| == 32
    ensures Encode([Static(w0), Dyn(x), Static(w2)]) == w0 + BigEndian(96, 32) + w2 + Blob(x)
  {
    var v := [Static(w0), Dyn(x), Static(w2)];
    TailIsBlob(x);
    assert TailOffset(v, 0) == 96 && TailOffset(v, 1) == 96;
    HeadsThree(Parts(v));
    assert [] + Blob(x) + [] == Blob(x);
  }

  // ---------------------------------------------------------------- messages as bytes

  /** The bytes of an optional field: none for a missing one. */
  function OrEmpty(o: Option<NonEmptyBytes>): Bytes {
    match o
    case None => []
    case Some(b) => b
  }

  /** What the specification says the encoding of a message is. */
  function Wire(m: Message): Bytes {
    match m
    case InterchainTransfer(id, source, destination, amount, data) =>
      Transfer(id, source, destination, amount, OrEmpty(data))
    case DeployInterchainToken(id, name, symbol, decimals, minter) =>
      Deploy(id, name, symbol, decimals, OrEmpty(minter))
    case LinkToken(id, managerType, source, destination, params) =>
      Link(id, managerType, source, destination, OrEmpty(params))
  }

  function WireHub(m: HubMessage): Bytes {
    match m
    case SendToHub(chain, message) => Routed(3, chain, Wire(message))
    case ReceiveFromHub(chain, message) => Routed(4, chain, Wire(message))
    case RegisterTokenMetadata(decimals, address) => Metadata(address, decimals)
  }

  lemma TransferBytes(n: nat, id: Bytes, x: Bytes, y: Bytes, number: nat, z: Bytes)
    requires |id| == 32
    ensures Encode([Num(n), Static(id), Dyn(x), Dyn(y), Num(number), Dyn(z)]) == TransferLike(n, id, x, y, number, z)
  {
    EncodeTransferShape(BigEndian(n, 32), id, x, y, BigEndian(number, 32), z);
  }

  lemma LinkBytes(n: nat, id: Bytes, number: nat, x: Bytes, y: Bytes, z: Bytes)
    requires |id| == 32
    ensures Encode([Num(n), Static(id), Num(number), Dyn(x), Dyn(y), Dyn(z)]) == LinkLike(n, id, number, x, y, z)
  {
    EncodeLinkShape(BigEndian(n, 32), id, BigEndian(number, 32), x, y, z);
  }

  lemma RoutedBytes(n: nat, chain: Bytes, message: Bytes)
    ensures Encode(RoutedParams(n, chain, message)) == Routed(n, chain, message)
  {
    EncodeRoutedShape(BigEndian(n, 32), chain, message);
  }

  lemma MetadataBytes(n: nat, address: Bytes, decimals: nat)
    ensures Encode([Num(n), Dyn(address), Num(decimals)]) ==
              BigEndian(n, 32) + BigEndian(96, 32) + BigEndian(decimals, 32) + Blob(address)
  {
    EncodeMetadataShape(BigEndian(n, 32), address, BigEndian(decimals, 32));
  }

  lemma TransferOnTheWire(m: Message)
    requires m.InterchainTransfer?
    ensures EncodeMessage(m) == Wire(m)
  {
    TransferBytes(0, m.tokenId, m.sourceAddress, m.destinationAddress, m.amount, OrEmpty(m.data));
  }

  lemma DeployOnTheWire(m: Message)
    requires m.DeployInterchainToken?
    ensures EncodeMessage(m) == Wire(m)
  {
    TransferBytes(1, m.tokenId, m.name, m.symbol, m.decimals, OrEmpty(m.minter));
  }

  lemma LinkOnTheWire(m: Message)
    requires m.LinkToken?
    ensures EncodeMessage(m) == Wire(m)
  {
    LinkBytes(5, m.tokenId, m.tokenManagerType, m.sourceTokenAddress, m.destinationTokenAddress, OrEmpty(m.params));
  }

  /** Every message is encoded as its struct declares: type number, order of fields, offsets and padding. */
  lemma MessageOnTheWire(m: Message)
    ensures EncodeMessage(m) == Wire(m)
  {
    match m
    case InterchainTransfer(_, _, _, _, _) => TransferOnTheWire(m);
    case DeployInterchainToken(_, _, _, _, _) => DeployOnTheWire(m);
    case LinkToken(_, _, _, _, _) => LinkOnTheWire(m);
  }

  lemma RoutedOnTheWire(m: HubMessage)
    requires !m.RegisterTokenMetadata?
    ensures EncodeHub(m) == WireHub(m)
  {
    MessageOnTheWire(m.message);
    if m.SendToHub? { RoutedBytes(3, m.destinationChain, Wire(m.message)); }
    else { RoutedBytes(4, m.sourceChain, Wire(m.message)); }
  }

  lemma MetadataOnTheWire(m: HubMessage)
    requires m.RegisterTokenMetadata?
    ensures EncodeHub(m) == WireHub(m)
  {
    MetadataBytes(6, m.tokenAddress, m.decimals);
  }

  /** Every hub message is encoded as its struct declares, around the bytes of the nested message. */
  lemma HubOnTheWire(m: HubMessage)
    ensures EncodeHub(m) == WireHub(m)
  {
    if m.RegisterTokenMetadata? { MetadataOnTheWire(m); } else { RoutedOnTheWire(m); }
  }

  /** And decoding accepts exactly these bytes. */
  lemma DecodesIffOnTheWire(payload: Bytes, m: Message, h: HubMessage)
    requires |payload| < Pow256(32)
    ensures DecodeMessage(payload) == Ok(m) <==> payload == Wire(m)
    ensures DecodeHub(payload) == Ok(h) <==> payload == WireHub(h)
  {
    MessageOnTheWire(m);
    HubOnTheWire(h);
    DecodesIffEncoding(payload, h);
    if DecodeMessage(payload) == Ok(m) { DecodedMessageIsEncoded(payload); }
    if payload == Wire(m) { MessageRoundTrip(m); }
  }

  // ---------------------------------------------------------------- fields at their places

  /** A word of the payload. */
  ghost predicate WordAt(data: Bytes, i: nat, w: Bytes) {
    At(data, 32 * i, w)
  }

  /** The i-th word is the offset at which the dynamic field stands. */
  ghost predicate BlobAt(data: Bytes, i: nat, b: Bytes) {
    exists offset: nat :: At(data, 32 * i, BigEndian(offset, 32)) && At(data, offset, Blob(b))
  }

  lemma ValuePlace(vals: seq<Value>, i: nat)
    requires WellFormed(vals) && i < |vals|
    ensures vals[i].Static? ==> WordAt(Encode(vals), i, vals[i].word)
    ensures vals[i].Dyn? ==> BlobAt(Encode(vals), i, vals[i].bytes)
  {
    Layout(vals, i);
    if vals[i].Dyn? { TailIsBlob(vals[i].bytes); }
  }

  /** Where the fields of a message stand in its bytes. */
  ghost predicate FieldsAt(data: Bytes, m: Message) {
    match m
    case InterchainTransfer(id, source, destination, amount, extra) =>
      && WordAt(data, 0, BigEndian(0, 32)) && WordAt(data, 1, id)
      && BlobAt(data, 2, source) && BlobAt(data, 3, destination)
      && WordAt(data, 4, BigEndian(amount, 32)) && BlobAt(data, 5, OrEmpty(extra))
    case DeployInterchainToken(id, name, symbol, decimals, minter) =>
      && WordAt(data, 0, BigEndian(1, 32)) && WordAt(data, 1, id)
      && BlobAt(data, 2, name) && BlobAt(data, 3, symbol)
      && WordAt(data, 4, BigEndian(decimals, 32)) && BlobAt(data, 5, OrEmpty(minter))
    case LinkToken(id, managerType, source, destination, params) =>
      && WordAt(data, 0, BigEndian(5, 32)) && WordAt(data, 1, id)
      && WordAt(data, 2, BigEndian(managerType, 32))
      && BlobAt(data, 3, source) && BlobAt(data, 4, destination) && BlobAt(data, 5, OrEmpty(params))
  }

  ghost predicate HubFieldsAt(data: Bytes, m: HubMessage) {
    match m
    case SendToHub(chain, message) =>
      WordAt(data, 0, BigEndian(3, 32)) && BlobAt(data, 1, chain) && BlobAt(data, 2, Wire(message))
    case ReceiveFromHub(chain, message) =>
      WordAt(data, 0, BigEndian(4, 32)) && BlobAt(data, 1, chain) && BlobAt(data, 2, Wire(message))
    case RegisterTokenMetadata(decimals, address) =>
      WordAt(data, 0, BigEndian(6, 32)) && BlobAt(data, 1, address) && WordAt(data, 2, BigEndian(decimals, 32))
  }

  lemma TransferPlaces(w0: Bytes, w1: Bytes, x: Bytes, y: Bytes, w4: Bytes, z: Bytes)
    requires |w0| == |w1| == |w4| == 32
    ensures var data := Encode(TransferShapeValues(w0, w1, x, y, w4, z));
            && WordAt(data, 0, w0) && WordAt(data, 1, w1) && BlobAt(data, 2, x) && BlobAt(data, 3, y)
            && WordAt(data, 4, w4) && BlobAt(data, 5, z)
  {
    var v := TransferShapeValues(w0, w1, x, y, w4, z);
    forall i: nat | i < 6
      ensures v[i].Static? ==> WordAt(Encode(v), i, v[i].word)
      ensures v[i].Dyn? ==> BlobAt(Encode(v), i, v[i].bytes)
    {
      ValuePlace(v, i);
    }
    assert v[0].word == w0 && v[1].word == w1 && v[2].bytes == x && v[3].bytes == y && v[4].word == w4 && v[5].bytes == z;
  }

  lemma LinkPlaces(w0: Bytes, w1: Bytes, w2: Bytes, x: Bytes, y: Bytes, z: Bytes)
    requires |w0| == |w1| == |w2| == 32
    ensures var data := Encode(LinkShapeValues(w0, w1, w2, x, y, z));
            && WordAt(data, 0, w0) && WordAt(data, 1, w1) && WordAt(data, 2, w2)
            && BlobAt(data, 3, x) && BlobAt(data, 4, y) && BlobAt(data, 5, z)
  {
    var v := LinkShapeValues(w0, w1, w2, x, y, z);
    forall i: nat | i < 6
      ensures v[i].Static? ==> WordAt(Encode(v), i, v[i].word)
      ensures v[i].Dyn? ==> BlobAt(Encode(v), i, v[i].bytes)
    {
      ValuePlace(v, i);
    }
    assert v[0].word == w0 && v[1].word == w1 && v[2].word == w2 && v[3].bytes == x && v[4].bytes == y && v[5].bytes == z;
  }

  lemma EncodedTransferFields(m: Message)
    requires m.InterchainTransfer?
    ensures FieldsAt(EncodeMessage(m), m)
  {
    TransferPlaces(Uint(0), m.tokenId, m.sourceAddress, m.destinationAddress, Uint(m.amount), OrEmpty(m.data));
  }

  lemma EncodedDeployFields(m: Message)
    requires m.DeployInterchainToken?
    ensures FieldsAt(EncodeMessage(m), m)
  {
    TransferPlaces(Uint(1), m.tokenId, m.name, m.symbol, Uint(m.decimals), OrEmpty(m.minter));
  }

  lemma EncodedLinkFields(m: Message)
    requires m.LinkToken?
    ensures FieldsAt(EncodeMessage(m), m)
  {
    LinkPlaces(Uint(5), m.tokenId, Uint(m.tokenManagerType), m.sourceTokenAddress, m.destinationTokenAddress, OrEmpty(m.params));
  }

  lemma EncodedFields(m: Message)
    ensures FieldsAt(EncodeMessage(m), m)
  {
    match m
    case InterchainTransfer(_, _, _, _, _) => EncodedTransferFields(m);
    case DeployInterchainToken(_, _, _, _, _) => EncodedDeployFields(m);
    case LinkToken(_, _, _, _, _) => EncodedLinkFields(m);
  }

  lemma EncodedHubFields(m: HubMessage)
    ensures HubFieldsAt(EncodeHub(m), m)
  {
    var v := HubParams(m);
    ValuePlace(v, 0);
    ValuePlace(v, 1);
    ValuePlace(v, 2);
    match m
    case SendToHub(_, message) => MessageOnTheWire(message);
    case ReceiveFromHub(_, message) => MessageOnTheWire(message);
    case RegisterTokenMetadata(_, _) =>
  }

  /** An accepted payload carries every field of the message it is read as at its declared place. */
  lemma DecodedFields(payload: Bytes)
    ensures DecodeMessage(payload).Ok? ==> FieldsAt(payload, DecodeMessage(payload).value)
    ensures DecodeHub(payload).Ok? ==> HubFieldsAt(payload, DecodeHub(payload).value)
  {
    if DecodeMessage(payload).Ok? {
      DecodedMessageIsEncoded(payload);
      EncodedFields(DecodeMessage(payload).value);
    }
    if DecodeHub(payload).Ok? {
      DecodedHubIsEncoded(payload);
      EncodedHubFields(DecodeHub(payload).value);
    }
  }

  // ---------------------------------------------------------------- every field, valid or not

  lemma ParamsRead(kinds: seq<Kind>, vals: seq<Value>, n: nat)
    requires WellFormed(vals) && Kinds(vals) == kinds && |Encode(vals)| < Pow256(32)
    requires vals != [] && vals[0] == Static(BigEndian(n, 32)) && n < 7
    ensures MessageType(Encode(vals)) == Ok(n) && Parameters(kinds, Encode(vals)) == Some(vals)
  {
    DecodeEncoded(vals);
    assert vals[0] == Num(n);
    TypeWord(vals, n);
  }

  lemma TransferKinds(w0: Bytes, w1: Bytes, x: Bytes, y: Bytes, w4: Bytes, z: Bytes)
    requires |w0| == |w1| == |w4| == 32
    ensures Kinds(TransferShapeValues(w0, w1, x, y, w4, z)) == TRANSFER_KINDS == DEPLOY_KINDS
    ensures WellFormed(TransferShapeValues(w0, w1, x, y, w4, z))
  {
  }

  lemma LinkKinds(w0: Bytes, w1: Bytes, w2: Bytes, x: Bytes, y: Bytes, z: Bytes)
    requires |w0| == |w1| == |w2| == 32
    ensures Kinds(LinkShapeValues(w0, w1, w2, x, y, z)) == LINK_KINDS
    ensures WellFormed(LinkShapeValues(w0, w1, w2, x, y, z))
  {
  }

  lemma ReadTransferShape(n: nat, id: Bytes, x: Bytes, y: Bytes, number: nat, z: Bytes)
    requires n < 7 && |id| == 32
    requires |Encode(TransferShapeValues(BigEndian(n, 32), id, x, y, BigEndian(number, 32), z))| < Pow256(32)
    ensures var v := TransferShapeValues(BigEndian(n, 32), id, x, y, BigEndian(number, 32), z);
            && Kinds(v) == TRANSFER_KINDS == DEPLOY_KINDS && WellFormed(v)
            && MessageType(Encode(v)) == Ok(n) && Parameters(TRANSFER_KINDS, Encode(v)) == Some(v)
  {
    var v := TransferShapeValues(BigEndian(n, 32), id, x, y, BigEndian(number, 32), z);
    TransferKinds(BigEndian(n, 32), id, x, y, BigEndian(number, 32), z);
    ParamsRead(TRANSFER_KINDS, v, n);
  }

  lemma ReadLinkShape(n: nat, id: Bytes, number: nat, x: Bytes, y: Bytes, z: Bytes)
    requires n < 7 && |id| == 32
    requires |Encode(LinkShapeValues(BigEndian(n, 32), id, BigEndian(number, 32), x, y, z))| < Pow256(32)
    ensures var v := LinkShapeValues(BigEndian(n, 32), id, BigEndian(number, 32), x, y, z);
            && Kinds(v) == LINK_KINDS && WellFormed(v)
            && MessageType(Encode(v)) == Ok(n) && Parameters(LINK_KINDS, Encode(v)) == Some(v)
  {
    var v := LinkShapeValues(BigEndian(n, 32), id, BigEndian(number, 32), x, y, z);
    LinkKinds(BigEndian(n, 32), id, BigEndian(number, 32), x, y, z);
    ParamsRead(LINK_KINDS, v, n);
  }

  lemma TransferOf(payload: Bytes, w: Bytes, id: TokenId, source: Bytes, destination: Bytes, number: Bytes, data: Bytes)
    requires MessageType(payload) == Ok(0) && |number| == 32
    requires Parameters(TRANSFER_KINDS, payload) == Some(TransferShapeValues(w, id, source, destination, number, data))
    ensures DecodeMessage(payload) ==
              if source == [] || destination == [] || FromBigEndian(number) == 0 then Err(NonEmpty)
              else Ok(InterchainTransfer(id, source, destination, FromBigEndian(number), if data == [] then None else Some(data)))
  {
  }

  lemma DeployOf(payload: Bytes, w: Bytes, id: TokenId, name: Bytes, symbol: Bytes, number: Bytes, minter: Bytes)
    requires MessageType(payload) == Ok(1) && |number| == 32
    requires Parameters(DEPLOY_KINDS, payload) == Some(TransferShapeValues(w, id, name, symbol, number, minter))
    ensures DecodeMessage(payload) ==
              if !IsUtf8(name) || !IsUtf8(symbol) || FromBigEndian(number) > 255 then Err(AbiDecodeFailed)
              else if name == [] || symbol == [] then Err(NonEmpty)
              else Ok(DeployInterchainToken(id, name, symbol, FromBigEndian(number), if minter == [] then None else Some(minter)))
  {
  }

  lemma LinkOf(payload: Bytes, w: Bytes, id: TokenId, number: Bytes, source: Bytes, destination: Bytes, params: Bytes)
    requires MessageType(payload) == Ok(5) && |number| == 32
    requires Parameters(LINK_KINDS, payload) == Some(LinkShapeValues(w, id, number, source, destination, params))
    ensures DecodeMessage(payload) ==
              if source == [] || destination == [] then Err(NonEmpty)
              else Ok(LinkToken(id, FromBigEndian(number), source, destination, if params == [] then None else Some(params)))
  {
  }

  /** A transfer with any fields decodes to them, unless an address or the amount is empty. */
  lemma DecodeTransfer(id: TokenId, source: Bytes, destination: Bytes, amount: Uint256, data: Bytes)
    requires |Transfer(id, source, destination, amount, data)| < Pow256(32)
    ensures DecodeMessage(Transfer(id, source, destination, amount, data)) ==
              if source == [] || destination == [] || amount == 0 then Err(NonEmpty)
              else Ok(InterchainTransfer(id, source, destination, amount, if data == [] then None else Some(data)))
  {
    var word, number, payload := BigEndian(0, 32), BigEndian(amount, 32), Transfer(id, source, destination, amount, data);
    assert MessageType(payload) == Ok(0)
        && Parameters(TRANSFER_KINDS, payload) == Some(TransferShapeValues(word, id, source, destination, number, data)) by {
      EncodeTransferShape(word, id, source, destination, number, data);
      ReadTransferShape(0, id, source, destination, amount, data);
    }
    TransferOf(payload, word, id, source, destination, number, data);
    BigEndianRoundTrip(amount, 32);
  }

  /** A deployment with any fields decodes to them, unless a text is no UTF-8, the decimals exceed a byte, or a
      text is empty. */
  lemma DecodeDeploy(id: TokenId, name: Bytes, symbol: Bytes, decimals: Uint256, minter: Bytes)
    requires |Deploy(id, name, symbol, decimals, minter)| < Pow256(32)
    ensures DecodeMessage(Deploy(id, name, symbol, decimals, minter)) ==
              if !IsUtf8(name) || !IsUtf8(symbol) || decimals > 255 then Err(AbiDecodeFailed)
              else if name == [] || symbol == [] then Err(NonEmpty)
              else Ok(DeployInterchainToken(id, name, symbol, decimals, if minter == [] then None else Some(minter)))
  {
    var word, number, payload := BigEndian(1, 32), BigEndian(decimals, 32), Deploy(id, name, symbol, decimals, minter);
    assert MessageType(payload) == Ok(1)
        && Parameters(DEPLOY_KINDS, payload) == Some(TransferShapeValues(word, id, name, symbol, number, minter)) by {
      EncodeTransferShape(word, id, name, symbol, number, minter);
      ReadTransferShape(1, id, name, symbol, decimals, minter);
    }
    DeployOf(payload, word, id, name, symbol, number, minter);
    BigEndianRoundTrip(decimals, 32);
  }

  /** A link with any fields decodes to them, unless a token address is empty. */
  lemma DecodeLink(id: TokenId, managerType: Uint256, source: Bytes, destination: Bytes, params: Bytes)
    requires |Link(id, managerType, source, destination, params)| < Pow256(32)
    ensures DecodeMessage(Link(id, managerType, source, destination, params)) ==
              if source == [] || destination == [] then Err(NonEmpty)
              else Ok(LinkToken(id, managerType, source, destination, if params == [] then None else Some(params)))
  {
    var word, number := BigEndian(5, 32), BigEndian(managerType, 32);
    var payload := Link(id, managerType, source, destination, params);
    assert MessageType(payload) == Ok(5)
        && Parameters(LINK_KINDS, payload) == Some(LinkShapeValues(word, id, number, source, destination, params)) by {
      EncodeLinkShape(word, id, number, source, destination, params);
      ReadLinkShape(5, id, managerType, source, destination, params);
    }
    LinkOf(payload, word, id, number, source, destination, params);
    BigEndianRoundTrip(managerType, 32);
  }

  lemma ReadRoutedShape(n: nat, chain: Bytes, message: Bytes)
    requires n < 7 && |Routed(n, chain, message)| < Pow256(32)
    ensures MessageType(Routed(n, chain, message)) == Ok(n)
    ensures Parameters(ROUTED_KINDS, Routed(n, chain, message)) == Some([Static(BigEndian(n, 32)), Dyn(chain), Dyn(message)])
  {
    var v := [Static(BigEndian(n, 32)), Dyn(chain), Dyn(message)];
    EncodeRoutedShape(BigEndian(n, 32), chain, message);
    assert Kinds(v) == ROUTED_KINDS;
    ParamsRead(ROUTED_KINDS, v, n);
  }

  /** What the two inner fields of a routed message decode to. */
  function Inner(chain: Bytes, message: Bytes): Result<(Bytes, Message), Error> {
    if !IsUtf8(chain) then Err(AbiDecodeFailed)
    else if !(1 <= |chain| <= 20 && forall i :: 0 <= i < |chain| ==> chain[i] <= 0x7F && chain[i] != 0x5F)
    then Err(InvalidChainName)
    else
      match DecodeMessage(message)
      case Err(e) => Err(e)
      case Ok(m) => Ok((chain, m))
  }

  lemma DecodeRoutedInner(payload: Bytes, w: Bytes, chain: Bytes, message: Bytes)
    requires Parameters(ROUTED_KINDS, payload) == Some([Static(w), Dyn(chain), Dyn(message)])
    ensures DecodeRouted(payload) == ToRouted(chain, message)
  {
    var v := Parameters(ROUTED_KINDS, payload).value;
    assert v[1].bytes == chain && v[2].bytes == message;
  }

  lemma ToRoutedIsInner(chain: Bytes, message: Bytes)
    ensures match Inner(chain, message)
            case Err(e) => ToRouted(chain, message) == Err(e)
            case Ok((c, m)) =>
              ToRouted(chain, message).Ok? && ToRouted(chain, message).value.0 == chain && ToRouted(chain, message).value.1 == m
  {
  }

  lemma DecodeHubRouted(toHub: bool, payload: Bytes)
    requires MessageType(payload) == Ok(if toHub then 3 else 4)
    ensures var inner, r := DecodeRouted(payload), DecodeHub(payload);
            match inner
            case Err(e) => r == Err(e)
            case Ok((c, m)) => r == Ok(if toHub then SendToHub(c, m) else ReceiveFromHub(c, m))
  {
  }

  /** `r` is a hub message with this chain and message, of this direction. */
  predicate IsRouted(toHub: bool, r: Result<HubMessage, Error>, chain: Bytes, m: Message) {
    && r.Ok?
    && if toHub then r.value.SendToHub? && r.value.destinationChain == chain && r.value.message == m
       else r.value.ReceiveFromHub? && r.value.sourceChain == chain && r.value.message == m
  }

  /** A routed message with any chain name and payload: the name is checked first, then the payload decodes as a
      message or its error is passed on; type 3 goes to the hub and type 4 comes from it. */
  lemma DecodeRoutedBytes(toHub: bool, chain: Bytes, message: Bytes)
    requires |Routed(if toHub then 3 else 4, chain, message)| < Pow256(32)
    ensures var r := DecodeHub(Routed(if toHub then 3 else 4, chain, message));
            match Inner(chain, message)
            case Err(e) => r == Err(e)
            case Ok((_, m)) => IsRouted(toHub, r, chain, m)
  {
    var n := if toHub then 3 else 4;
    var payload := Routed(n, chain, message);
    assert MessageType(payload) == Ok(n) && DecodeRouted(payload) == ToRouted(chain, message) by {
      ReadRoutedShape(n, chain, message);
      DecodeRoutedInner(payload, BigEndian(n, 32), chain, message);
    }
    ToRoutedIsInner(chain, message);
    DecodeHubRouted(toHub, payload);
  }

  lemma MetadataOf(payload: Bytes, w: Bytes, address: Bytes, number: Bytes)
    requires MessageType(payload) == Ok(6) && |number| == 32
    requires Parameters(METADATA_KINDS, payload) == Some([Static(w), Dyn(address), Static(number)])
    ensures DecodeHub(payload) ==
              if FromBigEndian(number) > 255 then Err(AbiDecodeFailed)
              else if address == [] then Err(NonEmpty)
              else Ok(RegisterTokenMetadata(FromBigEndian(number), address))
  {
  }

  /** Metadata with any fields decodes to them, unless the decimals exceed a byte or the address is empty. */
  lemma DecodeMetadata(address: Bytes, decimals: Uint256)
    requires |Metadata(address, decimals)| < Pow256(32)
    ensures DecodeHub(Metadata(address, decimals)) ==
              if decimals > 255 then Err(AbiDecodeFailed)
              else if address == [] then Err(NonEmpty)
              else Ok(RegisterTokenMetadata(decimals, address))
  {
    var word, number, payload := BigEndian(6, 32), BigEndian(decimals, 32), Metadata(address, decimals);
    var v := [Static(word), Dyn(address), Static(number)];
    assert MessageType(payload) == Ok(6) && Parameters(METADATA_KINDS, payload) == Some(v) by {
      EncodeMetadataShape(word, address, number);
      assert Kinds(v) == METADATA_KINDS;
      ParamsRead(METADATA_KINDS, v, 6);
    }
    MetadataOf(payload, word, address, number);
    BigEndianRoundTrip(decimals, 32);
  }

  /** What is too short or has another type is refused as such, before anything else is read. */
  lemma RefusedByType(payload: Bytes)
    ensures |payload| < 32 ==>
              DecodeMessage(payload) == Err(InsufficientMessageLength) && DecodeHub(payload) == Err(InsufficientMessageLength)
    ensures |payload| >= 32 ==>
              && (DecodeMessage(payload) == Err(InvalidMessageType) <==> FromBigEndian(payload[0..32]) !in {0, 1, 5})
              && (FromBigEndian(payload[0..32]) !in {3, 4, 6} ==> DecodeHub(payload) == Err(InvalidMessageType))
              && DecodeMessage(payload) != Err(InsufficientMessageLength)
  {
  }
}
