/** UTF-8 well-formedness, table 3-7 of the Unicode Standard. */
module Utf8 {
  import opened ByteStrings

  predicate Continuation(b: byte) {
    0x80 <= b <= 0xBF
  }

  /** The length of the well-formed character that starts the string, 0 if there is none. */
  function FirstCharLength(s: Bytes): (n: nat)
    ensures n <= |s|
  {
    if s == [] then 0
    else if s[0] <= 0x7F then 1
    else if 0xC2 <= s[0] <= 0xDF && |s| >= 2 && Continuation(s[1]) then 2
    else if |s| >= 3 && Continuation(s[1]) && Continuation(s[2])
            && (|| (s[0] == 0xE0 && 0xA0 <= s[1])
                || 0xE1 <= s[0] <= 0xEC
                || (s[0] == 0xED && s[1] <= 0x9F)
                || 0xEE <= s[0] <= 0xEF) then 3
    else if |s| >= 4 && Continuation(s[1]) && Continuation(s[2]) && Continuation(s[3])
            && (|| (s[0] == 0xF0 && 0x90 <= s[1])
                || 0xF1 <= s[0] <= 0xF3
                || (s[0] == 0xF4 && s[1] <= 0x8F)) then 4
    else 0
  }

  predicate IsUtf8(s: Bytes) {
    s == [] || (FirstCharLength(s) > 0 && IsUtf8(s[FirstCharLength(s)..]))
  }

  lemma {:induction false} AsciiIsUtf8(s: Bytes)
    requires forall i :: 0 <= i < |s| ==> s[i] <= 0x7F
    ensures IsUtf8(s)
  {
    if s != [] { AsciiIsUtf8(s[1..]); }
  }
}

/** The message codec of the interchain token service (contracts/interchain-token-service/src/abi.rs). */
module ItsCodec {
  import opened Outcomes
  import opened ByteStrings
  import opened AbiParams
  import opened Utf8

  /** 32-byte token ids, 256-bit numbers, and the types of the source that exclude empty values. */
  type TokenId = b: Bytes | |b| == 32 witness BigEndian(0, 32)
  type Uint256 = n: nat | n < Pow256(32) witness 0
  type PositiveUint256 = n: Uint256 | n != 0 witness PositiveWitness()
  type NonEmptyBytes = b: Bytes | b != [] witness [0]
  type NonEmptyText = b: Bytes | b != [] && IsUtf8(b) witness [0x61]

  function PositiveWitness(): (n: nat)
    ensures 0 != n < Pow256(32)
  {
    assert Pow256(32) == 256 * Pow256(31);
    1
  }

  /** `ChainNameRaw`: 1 to 20 ASCII characters other than the underscore. */
  predicate ValidChainName(b: Bytes) {
    1 <= |b| <= 20 && forall i :: 0 <= i < |b| ==> b[i] <= 0x7F && b[i] != 0x5F
  }

  type ChainNameRaw = b: Bytes | ValidChainName(b) witness [0x61]

  datatype Message =
    | InterchainTransfer(
        tokenId: TokenId,
        sourceAddress: NonEmptyBytes,
        destinationAddress: NonEmptyBytes,
        amount: PositiveUint256,
        data: Option<NonEmptyBytes>)
    | DeployInterchainToken(
        tokenId: TokenId,
        name: NonEmptyText,
        symbol: NonEmptyText,
        decimals: byte,
        minter: Option<NonEmptyBytes>)
    | LinkToken(
        tokenId: TokenId,
        tokenManagerType: Uint256,
        sourceTokenAddress: NonEmptyBytes,
        destinationTokenAddress: NonEmptyBytes,
        params: Option<NonEmptyBytes>)

  datatype HubMessage =
    | SendToHub(destinationChain: ChainNameRaw, message: Message)
    | ReceiveFromHub(sourceChain: ChainNameRaw, message: Message)
    | RegisterTokenMetadata(decimals: byte, tokenAddress: NonEmptyBytes)

  datatype Error = InsufficientMessageLength | InvalidMessageType | InvalidChainName | NonEmpty | AbiDecodeFailed

  /** The message type numbers; 2 is DeployTokenManager, which the hub does not support. */
  const INTERCHAIN_TRANSFER := 0
  const DEPLOY_INTERCHAIN_TOKEN := 1
  const SEND_TO_HUB := 3
  const RECEIVE_FROM_HUB := 4
  const LINK_TOKEN := 5
  const REGISTER_TOKEN_METADATA := 6

  function Num(n: nat): (v: Value)
    ensures v.Static? && |v.word| == 32
  {
    Static(Uint(n))
  }

  function IntoVec(o: Option<NonEmptyBytes>): Bytes {
    if o.Some? then o.value else []
  }

  function FromVec(b: Bytes): Option<NonEmptyBytes> {
    if b == [] then None else Some(b)
  }

  function MessageParams(m: Message): (vals: seq<Value>)
    ensures WellFormed(vals)
  {
    match m
    case InterchainTransfer(tokenId, source, destination, amount, data) =>
      [Num(INTERCHAIN_TRANSFER), Static(tokenId), Dyn(source), Dyn(destination), Num(amount), Dyn(IntoVec(data))]
    case DeployInterchainToken(tokenId, name, symbol, decimals, minter) =>
      [Num(DEPLOY_INTERCHAIN_TOKEN), Static(tokenId), Dyn(name), Dyn(symbol), Num(decimals), Dyn(IntoVec(minter))]
    case LinkToken(tokenId, managerType, source, destination, params) =>
      [Num(LINK_TOKEN), Static(tokenId), Num(managerType), Dyn(source), Dyn(destination), Dyn(IntoVec(params))]
  }

  function EncodeMessage(m: Message): Bytes {
    Encode(MessageParams(m))
  }

  function RoutedParams(n: nat, chain: Bytes, message: Bytes): (vals: seq<Value>)
    ensures WellFormed(vals) && Kinds(vals) == ROUTED_KINDS
  {
    var vals := [Num(n), Dyn(chain), Dyn(message)];
    assert Kinds(vals) == ROUTED_KINDS;
    vals
  }

  function HubParams(m: HubMessage): (vals: seq<Value>)
    ensures WellFormed(vals)
  {
    match m
    case SendToHub(chain, message) => RoutedParams(SEND_TO_HUB, chain, EncodeMessage(message))
    case ReceiveFromHub(chain, message) => RoutedParams(RECEIVE_FROM_HUB, chain, EncodeMessage(message))
    case RegisterTokenMetadata(decimals, address) => [Num(REGISTER_TOKEN_METADATA), Dyn(address), Num(decimals)]
  }

  function EncodeHub(m: HubMessage): Bytes {
    Encode(HubParams(m))
  }

  const TRANSFER_KINDS := [Word, Word, Dynamic, Dynamic, Word, Dynamic]
  const DEPLOY_KINDS := [Word, Word, Dynamic, Dynamic, Word, Dynamic]
  const LINK_KINDS := [Word, Word, Word, Dynamic, Dynamic, Dynamic]
  const ROUTED_KINDS := [Word, Dynamic, Dynamic]
  const METADATA_KINDS := [Word, Dynamic, Word]

  /** `MessageType::abi_decode` on the first word: one of the seven declared types. */
  function MessageType(payload: Bytes): Result<nat, Error> {
    if |payload| < 32 then Err(InsufficientMessageLength)
    else
      var n := FromBigEndian(payload[0..32]);
      if n < 7 then Ok(n) else Err(InvalidMessageType)
  }

  function ToTransfer(v: seq<Value>): Result<Message, Error>
    requires |v| == 6 && WellFormed(v) && Kinds(v) == TRANSFER_KINDS
  {
    var tokenId, source, destination, amount, data :=
      v[1].word, v[2].bytes, v[3].bytes, FromBigEndian(v[4].word), v[5].bytes;
    if source == [] || destination == [] || amount == 0 then Err(NonEmpty)
    else Ok(InterchainTransfer(tokenId, source, destination, amount, FromVec(data)))
  }

  /** Strings must be UTF-8 and decimals must fit into a byte for the parameters to decode at all. */
  function ToDeploy(v: seq<Value>): Result<Message, Error>
    requires |v| == 6 && WellFormed(v) && Kinds(v) == DEPLOY_KINDS
  {
    var tokenId, name, symbol, decimals, minter :=
      v[1].word, v[2].bytes, v[3].bytes, FromBigEndian(v[4].word), v[5].bytes;
    if !IsUtf8(name) || !IsUtf8(symbol) || decimals > 255 then Err(AbiDecodeFailed)
    else if name == [] || symbol == [] then Err(NonEmpty)
    else Ok(DeployInterchainToken(tokenId, name, symbol, decimals, FromVec(minter)))
  }

  function ToLink(v: seq<Value>): Result<Message, Error>
    requires |v| == 6 && WellFormed(v) && Kinds(v) == LINK_KINDS
  {
    var tokenId, managerType, source, destination, params :=
      v[1].word, FromBigEndian(v[2].word), v[3].bytes, v[4].bytes, v[5].bytes;
    if source == [] || destination == [] then Err(NonEmpty)
    else Ok(LinkToken(tokenId, managerType, source, destination, FromVec(params)))
  }

  /** Decoding with the shape that `DecodedIsEncoded` establishes. */
  function Parameters(kinds: seq<Kind>, payload: Bytes): (r: Option<seq<Value>>)
    ensures r.Some? ==> |r.value| == |kinds| && WellFormed(r.value) && Kinds(r.value) == kinds
  {
    var r := Decode(kinds, payload);
    if r.Some? then DecodedIsEncoded(kinds, payload); r else r
  }

  function DecodeMessage(payload: Bytes): Result<Message, Error> {
    match MessageType(payload)
    case Err(e) => Err(e)
    case Ok(n) =>
      if n == INTERCHAIN_TRANSFER then
        match Parameters(TRANSFER_KINDS, payload)
        case None => Err(AbiDecodeFailed)
        case Some(v) => ToTransfer(v)
      else if n == DEPLOY_INTERCHAIN_TOKEN then
        match Parameters(DEPLOY_KINDS, payload)
        case None => Err(AbiDecodeFailed)
        case Some(v) => ToDeploy(v)
      else if n == LINK_TOKEN then
        match Parameters(LINK_KINDS, payload)
        case None => Err(AbiDecodeFailed)
        case Some(v) => ToLink(v)
      else Err(InvalidMessageType)
  }

  /** The chain name and the nested message of a routed message. */
  function ToRouted(chain: Bytes, message: Bytes): Result<(ChainNameRaw, Message), Error> {
    if !IsUtf8(chain) then Err(AbiDecodeFailed)
    else if !ValidChainName(chain) then Err(InvalidChainName)
    else
      match DecodeMessage(message)
      case Err(e) => Err(e)
      case Ok(m) => Ok((chain, m))
  }

  function DecodeRouted(payload: Bytes): Result<(ChainNameRaw, Message), Error> {
    match Parameters(ROUTED_KINDS, payload)
    case None => Err(AbiDecodeFailed)
    case Some(v) =>
      assert Kinds(v)[1] == Dynamic && Kinds(v)[2] == Dynamic;
      ToRouted(v[1].bytes, v[2].bytes)
  }

  function ToMetadata(v: seq<Value>): Result<HubMessage, Error>
    requires |v| == 3 && WellFormed(v) && Kinds(v) == METADATA_KINDS
  {
    var address, decimals := v[1].bytes, FromBigEndian(v[2].word);
    if decimals > 255 then Err(AbiDecodeFailed)
    else if address == [] then Err(NonEmpty)
    else Ok(RegisterTokenMetadata(decimals, address))
  }

  function DecodeHub(payload: Bytes): Result<HubMessage, Error> {
    match MessageType(payload)
    case Err(e) => Err(e)
    case Ok(n) =>
      if n == SEND_TO_HUB then
        match DecodeRouted(payload)
        case Err(e) => Err(e)
        case Ok((chain, m)) => Ok(SendToHub(chain, m))
      else if n == RECEIVE_FROM_HUB then
        match DecodeRouted(payload)
        case Err(e) => Err(e)
        case Ok((chain, m)) => Ok(ReceiveFromHub(chain, m))
      else if n == REGISTER_TOKEN_METADATA then
        match Parameters(METADATA_KINDS, payload)
        case None => Err(AbiDecodeFailed)
        case Some(v) => ToMetadata(v)
      else Err(InvalidMessageType)
  }

  // ---------------------------------------------------------------- round trips

  lemma SmallFits(n: nat)
    requires n < 256
    ensures n < Pow256(32)
  {
    assert Pow256(1) == 256;
    Pow256Monotone(1, 32);
  }

  lemma TypeWord(vals: seq<Value>, n: nat)
    requires WellFormed(vals) && vals != [] && vals[0] == Num(n) && n < 7
    ensures MessageType(Encode(vals)) == Ok(n)
  {
    EncodeStartsWith(vals);
    SmallFits(n);
    BigEndianRoundTrip(n, 32);
  }

  lemma TransferFields(m: Message)
    requires m.InterchainTransfer?
    ensures Kinds(MessageParams(m)) == TRANSFER_KINDS && ToTransfer(MessageParams(m)) == Ok(m)
  {
    BigEndianRoundTrip(m.amount, 32);
    assert Kinds(MessageParams(m)) == TRANSFER_KINDS;
  }

  lemma TransferRoundTrip(m: Message)
    requires m.InterchainTransfer? && |EncodeMessage(m)| < Pow256(32)
    ensures DecodeMessage(EncodeMessage(m)) == Ok(m)
  {
    TransferFields(m);
    TypeWord(MessageParams(m), INTERCHAIN_TRANSFER);
    DecodeEncoded(MessageParams(m));
  }

  lemma DeployFields(m: Message)
    requires m.DeployInterchainToken?
    ensures Kinds(MessageParams(m)) == DEPLOY_KINDS && ToDeploy(MessageParams(m)) == Ok(m)
  {
    SmallFits(m.decimals);
    BigEndianRoundTrip(m.decimals, 32);
    assert Kinds(MessageParams(m)) == DEPLOY_KINDS;
  }

  lemma DeployRoundTrip(m: Message)
    requires m.DeployInterchainToken? && |EncodeMessage(m)| < Pow256(32)
    ensures DecodeMessage(EncodeMessage(m)) == Ok(m)
  {
    DeployFields(m);
    TypeWord(MessageParams(m), DEPLOY_INTERCHAIN_TOKEN);
    DecodeEncoded(MessageParams(m));
  }

  lemma LinkFields(m: Message)
    requires m.LinkToken?
    ensures Kinds(MessageParams(m)) == LINK_KINDS && ToLink(MessageParams(m)) == Ok(m)
  {
    BigEndianRoundTrip(m.tokenManagerType, 32);
    assert Kinds(MessageParams(m)) == LINK_KINDS;
  }

  lemma LinkRoundTrip(m: Message)
    requires m.LinkToken? && |EncodeMessage(m)| < Pow256(32)
    ensures DecodeMessage(EncodeMessage(m)) == Ok(m)
  {
    LinkFields(m);
    TypeWord(MessageParams(m), LINK_TOKEN);
    DecodeEncoded(MessageParams(m));
  }

  /** Decoding returns the encoded message, for every message whose encoding's offsets fit a word. */
  lemma MessageRoundTrip(m: Message)
    requires |EncodeMessage(m)| < Pow256(32)
    ensures DecodeMessage(EncodeMessage(m)) == Ok(m)
  {
    match m
    case InterchainTransfer(_, _, _, _, _) => TransferRoundTrip(m);
    case DeployInterchainToken(_, _, _, _, _) => DeployRoundTrip(m);
    case LinkToken(_, _, _, _, _) => LinkRoundTrip(m);
  }

  lemma RoutedRoundTrip(n: nat, chain: ChainNameRaw, m: Message)
    requires |Encode(RoutedParams(n, chain, EncodeMessage(m)))| < Pow256(32)
    ensures DecodeRouted(Encode(RoutedParams(n, chain, EncodeMessage(m)))) == Ok((chain, m))
  {
    var vals := RoutedParams(n, chain, EncodeMessage(m));
    DecodeEncoded(vals);
    DynShorter(vals, 2);
    MessageRoundTrip(m);
    AsciiIsUtf8(chain);
  }

  lemma MetadataRoundTrip(m: HubMessage)
    requires m.RegisterTokenMetadata? && |EncodeHub(m)| < Pow256(32)
    ensures DecodeHub(EncodeHub(m)) == Ok(m)
  {
    var payload := EncodeHub(m);
    assert MessageType(payload) == Ok(REGISTER_TOKEN_METADATA) by {
      TypeWord(HubParams(m), REGISTER_TOKEN_METADATA);
    }
    MetadataFields(m);
    assert Parameters(METADATA_KINDS, payload) == Some(HubParams(m)) by { DecodeEncoded(HubParams(m)); }
    MetadataDecodes(payload, HubParams(m));
  }

  lemma MetadataDecodes(payload: Bytes, v: seq<Value>)
    requires MessageType(payload) == Ok(REGISTER_TOKEN_METADATA) && Parameters(METADATA_KINDS, payload) == Some(v)
    ensures DecodeHub(payload) == ToMetadata(v)
  {
  }

  lemma MetadataFields(m: HubMessage)
    requires m.RegisterTokenMetadata?
    ensures Kinds(HubParams(m)) == METADATA_KINDS && ToMetadata(HubParams(m)) == Ok(m)
  {
    SmallFits(m.decimals);
    BigEndianRoundTrip(m.decimals, 32);
    assert Kinds(HubParams(m)) == METADATA_KINDS;
  }

  /** Decoding returns the encoded hub message, nested message included. */
  lemma HubRoundTrip(m: HubMessage)
    requires |EncodeHub(m)| < Pow256(32)
    ensures DecodeHub(EncodeHub(m)) == Ok(m)
  {
    match m
    case SendToHub(chain, message) =>
      TypeWord(HubParams(m), SEND_TO_HUB);
      RoutedRoundTrip(SEND_TO_HUB, chain, message);
    case ReceiveFromHub(chain, message) =>
      TypeWord(HubParams(m), RECEIVE_FROM_HUB);
      RoutedRoundTrip(RECEIVE_FROM_HUB, chain, message);
    case RegisterTokenMetadata(_, _) =>
      MetadataRoundTrip(m);
  }

  // ---------------------------------------------------------------- only encodings decode

  lemma WordIsUint(w: Bytes)
    requires |w| == 32
    ensures Static(w) == Num(FromBigEndian(w))
  {
    FromBigEndianRoundTrip(w);
  }

  /** A decoded parameter list with its type word, as the bytes it came from. */
  lemma DecodedParams(kinds: seq<Kind>, payload: Bytes) returns (v: seq<Value>)
    requires kinds != [] && kinds[0] == Word && Decode(kinds, payload).Some? && MessageType(payload).Ok?
    ensures Parameters(kinds, payload) == Some(v) && |v| == |kinds| && WellFormed(v) && Kinds(v) == kinds
    ensures Encode(v) == payload && v[0] == Num(MessageType(payload).value)
  {
    DecodedIsEncoded(kinds, payload);
    FirstWord(kinds, payload);
    v := Decode(kinds, payload).value;
    WordIsUint(v[0].word);
  }

  /** The shape that transfers and deployments share. */
  lemma TransferShape(v: seq<Value>)
    requires |v| == 6 && WellFormed(v) && Kinds(v) == TRANSFER_KINDS
    ensures v[0].Static? && v[1].Static? && v[2].Dyn? && v[3].Dyn? && v[4].Static? && v[5].Dyn?
    ensures |v[1].word| == |v[4].word| == 32
  {
    assert forall i :: 0 <= i < 6 ==> KindOf(v[i]) == TRANSFER_KINDS[i];
  }

  lemma ToTransferParams(v: seq<Value>)
    requires |v| == 6 && WellFormed(v) && Kinds(v) == TRANSFER_KINDS && v[0] == Num(INTERCHAIN_TRANSFER)
    ensures ToTransfer(v).Ok? ==> MessageParams(ToTransfer(v).value) == v
  {
    TransferShape(v);
    WordIsUint(v[4].word);
  }

  lemma ToDeployParams(v: seq<Value>)
    requires |v| == 6 && WellFormed(v) && Kinds(v) == DEPLOY_KINDS && v[0] == Num(DEPLOY_INTERCHAIN_TOKEN)
    ensures ToDeploy(v).Ok? ==> MessageParams(ToDeploy(v).value) == v
  {
    TransferShape(v);
    WordIsUint(v[4].word);
  }

  lemma ToLinkParams(v: seq<Value>)
    requires |v| == 6 && WellFormed(v) && Kinds(v) == LINK_KINDS && v[0] == Num(LINK_TOKEN)
    ensures ToLink(v).Ok? ==> MessageParams(ToLink(v).value) == v
  {
    assert forall i :: 0 <= i < 6 ==> KindOf(v[i]) == LINK_KINDS[i];
    WordIsUint(v[2].word);
  }

  lemma DecodedMessageIsEncoded(payload: Bytes)
    requires DecodeMessage(payload).Ok?
    ensures EncodeMessage(DecodeMessage(payload).value) == payload
  {
    var n := MessageType(payload).value;
    if n == INTERCHAIN_TRANSFER {
      var v := DecodedParams(TRANSFER_KINDS, payload);
      ToTransferParams(v);
    } else if n == DEPLOY_INTERCHAIN_TOKEN {
      var v := DecodedParams(DEPLOY_KINDS, payload);
      ToDeployParams(v);
    } else {
      var v := DecodedParams(LINK_KINDS, payload);
      ToLinkParams(v);
    }
  }

  lemma DecodedRoutedIsEncoded(payload: Bytes)
    requires MessageType(payload).Ok? && DecodeRouted(payload).Ok?
    ensures var (chain, m) := DecodeRouted(payload).value;
            Encode(RoutedParams(MessageType(payload).value, chain, EncodeMessage(m))) == payload
  {
    var v := DecodedParams(ROUTED_KINDS, payload);
    ThreeValues(v);
    DecodedMessageIsEncoded(v[2].bytes);
  }

  lemma ThreeValues(v: seq<Value>)
    requires |v| == 3 && Kinds(v) == ROUTED_KINDS && v[0].Static?
    ensures v[1].Dyn? && v[2].Dyn? && v == [v[0], Dyn(v[1].bytes), Dyn(v[2].bytes)]
  {
    assert KindOf(v[1]) == ROUTED_KINDS[1] && KindOf(v[2]) == ROUTED_KINDS[2];
  }

  lemma ToMetadataParams(v: seq<Value>)
    requires |v| == 3 && WellFormed(v) && Kinds(v) == METADATA_KINDS && v[0] == Num(REGISTER_TOKEN_METADATA)
    ensures ToMetadata(v).Ok? ==> HubParams(ToMetadata(v).value) == v
  {
    assert forall i :: 0 <= i < 3 ==> KindOf(v[i]) == METADATA_KINDS[i];
    WordIsUint(v[2].word);
  }

  lemma DecodedHubIsEncoded(payload: Bytes)
    requires DecodeHub(payload).Ok?
    ensures EncodeHub(DecodeHub(payload).value) == payload
  {
    if MessageType(payload).value == REGISTER_TOKEN_METADATA {
      var v := DecodedParams(METADATA_KINDS, payload);
      ToMetadataParams(v);
    } else {
      DecodedRoutedIsEncoded(payload);
    }
  }

  /** The codec is a bijection between hub messages and accepted payloads: a payload decodes to a
      message exactly when it is that message's encoding. */
  lemma DecodesIffEncoding(payload: Bytes, m: HubMessage)
    requires |payload| < Pow256(32)
    ensures DecodeHub(payload) == Ok(m) <==> payload == EncodeHub(m)
  {
    if DecodeHub(payload) == Ok(m) { DecodedHubIsEncoded(payload); }
    if payload == EncodeHub(m) { HubRoundTrip(m); }
  }

  lemma EncodingInjective(a: HubMessage, b: HubMessage)
    requires |EncodeHub(a)| < Pow256(32)
    requires EncodeHub(a) == EncodeHub(b)
    ensures a == b
  {
    HubRoundTrip(a);
    HubRoundTrip(b);
  }

  /** No payload is both a message and a hub message: each decoder refuses what the other accepts,
      because of its type. So a hub message never nests another. */
  lemma NeverBoth(payload: Bytes)
    ensures DecodeMessage(payload).Ok? ==> DecodeHub(payload) == Err(InvalidMessageType)
    ensures DecodeHub(payload).Ok? ==> DecodeMessage(payload) == Err(InvalidMessageType)
  {
  }
}
